/** Values of event fields and the text that identifies an aggregation bucket. */
module AggregateKeys {
  import opened Bytes

  datatype IntKind = KindU8 | KindU16 | KindU32 | KindU64 | KindUint | KindI8 | KindI16 | KindI32 | KindI64 | KindInt

  /**
   * A dynamically typed field value. A float64 comes with its shortest text and its truncation; float32 and
   * JSON numbers with their text; any other value with its JSON encoding, None when it has none.
   */
  datatype Any =
    | Nil
    | Text(s: string)
    | Num(kind: IntKind, n: int)
    | Float64(text: string, whole: int)
    | OtherNumber(text: string)
    | Flag(b: bool)
    | Structured(json: Option<string>)

  // ---------- decimal text ----------

  function Digit(d: nat): char
    requires d < 10
  {
    '0' + d as char
  }

  function Decimal(n: nat): (r: string)
    ensures |r| >= 1
  {
    if n < 10 then [Digit(n)] else Decimal(n / 10) + [Digit(n % 10)]
  }

  function Itoa(n: int): (r: string)
    ensures |r| >= 1
  {
    if n < 0 then "-" + Decimal(-n) else Decimal(n)
  }

  predicate IsDigit(c: char)
  {
    '0' <= c <= '9'
  }

  predicate AllDigits(s: string)
  {
    forall i :: 0 <= i < |s| ==> IsDigit(s[i])
  }

  lemma {:induction false} DecimalDigits(n: nat)
    ensures AllDigits(Decimal(n))
  {
    if n >= 10 {
      DecimalDigits(n / 10);
    }
  }

  lemma DigitInjective(a: nat, b: nat)
    requires a < 10 && b < 10 && Digit(a) == Digit(b)
    ensures a == b
  {
  }

  lemma {:induction false} DecimalInjective(a: nat, b: nat)
    requires Decimal(a) == Decimal(b)
    ensures a == b
  {
    var x, y := Decimal(a), Decimal(b);
    assert x[|x| - 1] == Digit(a % 10) && y[|y| - 1] == Digit(b % 10);
    DigitInjective(a % 10, b % 10);
    if a >= 10 && b >= 10 {
      assert x[..|x| - 1] == Decimal(a / 10) && y[..|y| - 1] == Decimal(b / 10);
      DecimalInjective(a / 10, b / 10);
    }
  }

  lemma ItoaInjective(a: int, b: int)
    requires Itoa(a) == Itoa(b)
    ensures a == b
  {
    DecimalDigits(if a < 0 then -a else a);
    DecimalDigits(if b < 0 then -b else b);
    var x, y := Itoa(a), Itoa(b);
    assert (a < 0) == (b < 0) by { assert x[0] == y[0]; }
    if a < 0 {
      assert x[1..] == Decimal(-a) && y[1..] == Decimal(-b);
      DecimalInjective(-a, -b);
    } else {
      DecimalInjective(a, b);
    }
  }

  // ---------- key text ----------

  function Sized(tag: char, s: string): string
  {
    [tag] + (Decimal(|s|) + ([':'] + s))
  }

  /** The text of one value, None when it cannot be encoded. */
  function KeyText(v: Any): Option<string>
  {
    match v
    case Nil => Some("nil")
    case Text(s) => Some(Sized('s', s))
    case Num(_, n) => Some(Itoa(n))
    case Float64(text, _) => Some(text)
    case OtherNumber(text) => Some(text)
    case Flag(b) => Some(if b then "true" else "false")
    case Structured(json) => if json.Some? then Some(Sized('j', json.value)) else None
  }

  /** The texts joined with bars, None when one is missing. */
  function Joined(vs: seq<Any>): Option<string>
  {
    if vs == [] then Some("")
    else if KeyText(vs[0]).None? || Joined(vs[1..]).None? then None
    else Some(KeyText(vs[0]).value + (if |vs| == 1 then "" else ['|'] + Joined(vs[1..]).value))
  }

  datatype Failure = MissingField(i: nat) | NotEncodable(i: nat)
  datatype Key = Ok(text: string) | Err(why: Failure)

  /** The first value that stops the key. */
  function FirstFailure(vs: seq<Option<Any>>, aggregateMissing: bool, i: nat): Option<Failure>
    requires i <= |vs|
    decreases |vs| - i
  {
    if i == |vs| then None
    else if vs[i].None? && !aggregateMissing then Some(MissingField(i))
    else if vs[i].Some? && KeyText(vs[i].value).None? then Some(NotEncodable(i))
    else FirstFailure(vs, aggregateMissing, i + 1)
  }

  /** Missing values read as nil. */
  function Present(vs: seq<Option<Any>>): seq<Any>
  {
    if vs == [] then [] else [if vs[0].Some? then vs[0].value else Nil] + Present(vs[1..])
  }

  lemma {:induction false} NoFailure(vs: seq<Option<Any>>, aggregateMissing: bool, i: nat)
    requires i <= |vs| && FirstFailure(vs, aggregateMissing, i).None?
    ensures Joined(Present(vs[i..])).Some?
    decreases |vs| - i
  {
    if i < |vs| {
      NoFailure(vs, aggregateMissing, i + 1);
      assert vs[i..][1..] == vs[i + 1..];
      assert Present(vs[i..])[1..] == Present(vs[i + 1..]);
    }
  }

  function KeyOf(vs: seq<Option<Any>>, aggregateMissing: bool): Key
  {
    if vs == [] then Ok("__global__")
    else
      match FirstFailure(vs, aggregateMissing, 0)
      case Some(why) => Err(why)
      case None =>
        NoFailure(vs, aggregateMissing, 0);
        assert vs[0..] == vs;
        Ok(Joined(Present(vs)).value)
  }

  // ---------- unique reading ----------

  /** What a key text can tell apart: numbers only by their text, everything else exactly. */
  datatype Canon =
    | CanonNil | CanonText(s: string) | CanonNumber(text: string) | CanonFlag(b: bool) | CanonJson(s: string)

  function CanonOf(v: Any): Canon
    requires KeyText(v).Some?
  {
    match v
    case Nil => CanonNil
    case Text(s) => CanonText(s)
    case Num(_, n) => CanonNumber(Itoa(n))
    case Float64(text, _) => CanonNumber(text)
    case OtherNumber(text) => CanonNumber(text)
    case Flag(b) => CanonFlag(b)
    case Structured(json) => CanonJson(json.value)
  }

  /** The text of a number: it does not look like another value and holds no bar. */
  predicate NumberText(s: string)
  {
    s != "" && s[0] !in "nstfj" && '|' !in s
  }

  predicate WellFormed(v: Any)
  {
    match v
    case Float64(text, _) => NumberText(text)
    case OtherNumber(text) => NumberText(text)
    case Structured(json) => json.Some?
    case _ => true
  }

  lemma NumText(n: int)
    ensures NumberText(Itoa(n))
  {
    DecimalDigits(if n < 0 then -n else n);
  }

  /** A piece without `stop`, ended by `stop` or the end of the text, is read back uniquely. */
  lemma {:induction false} UniquePiece(a: string, b: string, x: string, y: string, stop: char)
    requires stop !in a && stop !in b
    requires x == "" || x[0] == stop
    requires y == "" || y[0] == stop
    requires a + x == b + y
    ensures a == b && x == y
  {
    HeadOf(a, x);
    HeadOf(b, y);
    if a != "" && b != "" {
      UniquePiece(a[1..], b[1..], x, y, stop);
    }
  }

  lemma HeadOf(a: string, x: string)
    ensures a == "" ==> a + x == x
    ensures a != "" ==> a + x != "" && (a + x)[0] == a[0] && (a + x)[1..] == a[1..] + x
  {
  }

  lemma NoColon(s: string)
    requires AllDigits(s)
    ensures ':' !in s && '|' !in s
  {
  }

  /** A sized text is read back whatever it contains and whatever follows. */
  lemma UniqueSized(tag: char, s: string, t: string, x: string, y: string)
    requires Sized(tag, s) + x == Sized(tag, t) + y
    ensures s == t && x == y
  {
    var m, n := Decimal(|s|), Decimal(|t|);
    var restS, restT := [':'] + s + x, [':'] + t + y;
    assert (Sized(tag, s) + x)[1..] == m + restS;
    assert (Sized(tag, t) + y)[1..] == n + restT;
    DecimalDigits(|s|);
    DecimalDigits(|t|);
    NoColon(m);
    NoColon(n);
    UniquePiece(m, n, restS, restT, ':');
    DecimalInjective(|s|, |t|);
    assert restS[1..] == s + x && restT[1..] == t + y;
    assert (s + x)[..|s|] == s && (t + y)[..|t|] == t;
    assert (s + x)[|s|..] == x && (t + y)[|t|..] == y;
  }

  /** What separates one value from the next. */
  predicate Ends(x: string)
  {
    x == "" || x[0] == '|'
  }

  predicate IsNumber(v: Any)
  {
    v.Num? || v.Float64? || v.OtherNumber?
  }

  lemma FirstChar(v: Any)
    requires WellFormed(v)
    ensures KeyText(v).Some? && KeyText(v).value != ""
    ensures var c := KeyText(v).value[0];
            && (c == 'n' <==> v.Nil?) && (c == 's' <==> v.Text?) && (c == 'j' <==> v.Structured?)
            && (c == 't' <==> v == Flag(true)) && (c == 'f' <==> v == Flag(false))
  {
    if v.Num? { NumText(v.n); }
  }

  lemma NumberPiece(v: Any)
    requires WellFormed(v) && IsNumber(v)
    ensures KeyText(v).Some? && '|' !in KeyText(v).value && CanonOf(v) == CanonNumber(KeyText(v).value)
  {
    if v.Num? { NumText(v.n); }
  }

  /** One value followed by the rest of a key is read back uniquely. */
  lemma UniqueValue(v: Any, w: Any, x: string, y: string)
    requires WellFormed(v) && WellFormed(w) && Ends(x) && Ends(y)
    requires KeyText(v).Some? && KeyText(w).Some? && KeyText(v).value + x == KeyText(w).value + y
    ensures CanonOf(v) == CanonOf(w) && x == y
  {
    FirstChar(v);
    FirstChar(w);
    var a, b := KeyText(v).value, KeyText(w).value;
    assert (a + x)[0] == a[0] && (b + y)[0] == b[0];
    match v {
      case Nil => Tail(a, b, x, y);
      case Flag(_) => Tail(a, b, x, y);
      case Text(s) => UniqueSized('s', s, w.s, x, y);
      case Structured(json) => UniqueSized('j', json.value, w.json.value, x, y);
      case _ =>
        NumberPiece(v);
        NumberPiece(w);
        UniquePiece(a, b, x, y, '|');
    }
  }

  lemma Tail(a: string, b: string, x: string, y: string)
    requires a == b && a + x == b + y
    ensures x == y
  {
    assert (a + x)[|a|..] == x && (b + y)[|b|..] == y;
  }

  function Canons(vs: seq<Any>): seq<Canon>
    requires forall i :: 0 <= i < |vs| ==> WellFormed(vs[i])
  {
    if vs == [] then [] else FirstChar(vs[0]); [CanonOf(vs[0])] + Canons(vs[1..])
  }

  lemma {:induction false} JoinedDefined(vs: seq<Any>)
    requires forall i :: 0 <= i < |vs| ==> WellFormed(vs[i])
    ensures Joined(vs).Some?
  {
    if vs != [] {
      FirstChar(vs[0]);
      JoinedDefined(vs[1..]);
    }
  }

  lemma SameCanonSameText(v: Any, w: Any)
    requires WellFormed(v) && WellFormed(w) && KeyText(v).Some? && KeyText(w).Some? && CanonOf(v) == CanonOf(w)
    ensures KeyText(v) == KeyText(w)
  {
  }

  /**
   * Keys of equally many values are equal exactly when the values agree: strings and structured values exactly,
   * numbers by their text, whatever delimiters the strings contain.
   */
  lemma {:induction false} KeysInjective(vs: seq<Any>, ws: seq<Any>)
    requires |vs| == |ws|
    requires forall i :: 0 <= i < |vs| ==> WellFormed(vs[i]) && WellFormed(ws[i])
    ensures Joined(vs).Some? && Joined(ws).Some?
    ensures Joined(vs) == Joined(ws) <==> Canons(vs) == Canons(ws)
  {
    JoinedDefined(vs);
    JoinedDefined(ws);
    if vs != [] {
      FirstChar(vs[0]);
      FirstChar(ws[0]);
      KeysInjective(vs[1..], ws[1..]);
      var x := if |vs| == 1 then "" else ['|'] + Joined(vs[1..]).value;
      var y := if |ws| == 1 then "" else ['|'] + Joined(ws[1..]).value;
      if Joined(vs) == Joined(ws) {
        UniqueValue(vs[0], ws[0], x, y);
        if |vs| > 1 { assert x[1..] == Joined(vs[1..]).value && y[1..] == Joined(ws[1..]).value; }
        assert Canons(vs) == Canons(ws);
      }
      if Canons(vs) == Canons(ws) {
        assert Canons(vs)[0] == CanonOf(vs[0]) && Canons(ws)[0] == CanonOf(ws[0]);
        assert Canons(vs)[1..] == Canons(vs[1..]) && Canons(ws)[1..] == Canons(ws[1..]);
        SameCanonSameText(vs[0], ws[0]);
      }
    }
  }

  /** Two integers have the same key text exactly when they are equal, whatever their widths. */
  lemma IntegersByValue(k: IntKind, m: int, l: IntKind, n: int)
    ensures CanonOf(Num(k, m)) == CanonOf(Num(l, n)) <==> m == n
  {
    if Itoa(m) == Itoa(n) { ItoaInjective(m, n); }
  }

  lemma {:induction false} PresentWellFormed(vs: seq<Option<Any>>)
    requires forall i :: 0 <= i < |vs| && vs[i].Some? ==> WellFormed(vs[i].value)
    ensures |Present(vs)| == |vs|
    ensures forall i :: 0 <= i < |Present(vs)| ==> WellFormed(Present(vs)[i])
  {
    if vs != [] {
      PresentWellFormed(vs[1..]);
    }
  }

  /** Two events with the same key fields share a bucket exactly when their values agree, a missing value being nil. */
  lemma BucketsInjective(vs: seq<Option<Any>>, ws: seq<Option<Any>>, aggregateMissing: bool)
    requires |vs| == |ws| > 0 && KeyOf(vs, aggregateMissing).Ok? && KeyOf(ws, aggregateMissing).Ok?
    requires forall i :: 0 <= i < |vs| && vs[i].Some? ==> WellFormed(vs[i].value)
    requires forall i :: 0 <= i < |ws| && ws[i].Some? ==> WellFormed(ws[i].value)
    ensures |Present(vs)| == |vs| && |Present(ws)| == |ws|
    ensures forall i :: 0 <= i < |vs| ==> WellFormed(Present(vs)[i]) && WellFormed(Present(ws)[i])
    ensures KeyOf(vs, aggregateMissing) == KeyOf(ws, aggregateMissing) <==> Canons(Present(vs)) == Canons(Present(ws))
  {
    hide Joined, Present, Canons, FirstFailure;
    PresentWellFormed(vs);
    PresentWellFormed(ws);
    KeysInjective(Present(vs), Present(ws));
  }

  // ---------- building a key ----------

  lemma JoinedOne(v: Any)
    requires KeyText(v).Some?
    ensures Joined([v]) == Some(KeyText(v).value)
  {
    assert [v][1..] == [];
    Empty(KeyText(v).value);
  }

  lemma JoinedMore(v: Any, vs: seq<Any>)
    requires KeyText(v).Some? && vs != []
    ensures Joined(vs).Some? <==> Joined([v] + vs).Some?
    ensures Joined(vs).Some? ==> Joined([v] + vs) == Some(KeyText(v).value + ("|" + Joined(vs).value))
  {
    assert ([v] + vs)[1..] == vs;
  }

  lemma TextsSpelled()
    ensures KeyText(Text("a|b")) == Some("s3:a|b") && KeyText(Nil) == Some("nil") && KeyText(Flag(true)) == Some("true")
    ensures KeyText(Num(KindI64, -17)) == Some("-17") && KeyText(Structured(Some("[1]"))) == Some("j3:[1]")
  {
    assert Decimal(3) == "3";
    assert Decimal(17) == "1" + "7" == "17" by { assert Decimal(1) == "1"; }
    assert ['s'] + ("3" + ([':'] + "a|b")) == "s3:a|b" && ['j'] + ("3" + ([':'] + "[1]")) == "j3:[1]";
    assert "-" + "17" == "-17";
  }

  /** A key as it is spelled: lengths in front of strings and structured values, bars between, nil where missing. */
  lemma KeySpelled()
    ensures Joined([Text("a|b"), Nil, Num(KindI64, -17), Flag(true), Structured(Some("[1]"))])
            == Some("s3:a|b|nil|-17|true|j3:[1]")
  {
    hide Joined, KeyText;
    TextsSpelled();
    var e: seq<Any> := [Structured(Some("[1]"))];
    JoinedOne(e[0]);
    JoinedMore(Flag(true), e);
    var d := [Flag(true)] + e;
    JoinedMore(Num(KindI64, -17), d);
    var c := [Num(KindI64, -17)] + d;
    JoinedMore(Nil, c);
    var b := [Nil] + c;
    JoinedMore(Text("a|b"), b);
    assert "s3:a|b" + ("|" + ("nil" + ("|" + ("-17" + ("|" + ("true" + ("|" + "j3:[1]")))))))
           == "s3:a|b|nil|-17|true|j3:[1]";
    assert [Text("a|b")] + b == [Text("a|b"), Nil, Num(KindI64, -17), Flag(true), Structured(Some("[1]"))];
  }

  lemma {:induction false} JoinedSnoc(vs: seq<Any>, v: Any)
    requires vs != [] && Joined(vs).Some? && KeyText(v).Some?
    ensures Joined(vs + [v]) == Some(Joined(vs).value + "|" + KeyText(v).value)
  {
    hide KeyText, Joined;
    var rest := vs[1..];
    var t := FirstText(vs);
    assert vs == [vs[0]] + rest;
    Assoc([vs[0]], rest, [v]);
    JoinedMore(vs[0], rest + [v]);
    JoinedOne(v);
    if rest == [] {
      JoinedOne(vs[0]);
      Empty([vs[0]]);
      Empty([v]);
      Assoc(t, "|", KeyText(v).value);
    } else {
      JoinedMore(vs[0], rest);
      JoinedSnoc(rest, v);
      var j, k := Joined(rest).value, KeyText(v).value;
      Assoc("|", j + "|", k);
      Assoc("|", j, "|");
      Assoc(t, "|" + j, "|");
      Assoc(t, "|" + j + "|", k);
    }
  }

  lemma FirstText(vs: seq<Any>) returns (t: string)
    requires vs != [] && Joined(vs).Some?
    ensures KeyText(vs[0]) == Some(t)
  {
    t := KeyText(vs[0]).value;
  }

  lemma {:induction false} PresentSnoc(vs: seq<Option<Any>>, v: Option<Any>)
    ensures Present(vs + [v]) == Present(vs) + [if v.Some? then v.value else Nil]
  {
    if vs == [] {
      assert vs + [v] == [v];
    } else {
      assert (vs + [v])[1..] == vs[1..] + [v];
      PresentSnoc(vs[1..], v);
    }
  }

  method BuildKey(values: seq<Option<Any>>, aggregateMissing: bool) returns (key: Key)
    ensures key == KeyOf(values, aggregateMissing)
  {
    if |values| == 0 {
      return Ok("__global__");
    }
    var b := "";
    for i := 0 to |values|
      invariant FirstFailure(values, aggregateMissing, 0) == FirstFailure(values, aggregateMissing, i)
      invariant Joined(Present(values[..i])) == Some(b)
    {
      var val := Nil;
      if values[i].None? {
        if !aggregateMissing {
          return Err(MissingField(i));
        }
      } else {
        val := values[i].value;
      }
      if i > 0 {
        b := b + "|";
      }
      var text := KeyText(val);
      if text.None? {
        return Err(NotEncodable(i));
      }
      assert values[..i + 1] == values[..i] + [values[i]];
      PresentSnoc(values[..i], values[i]);
      PresentLength(values[..i]);
      if i > 0 { JoinedSnoc(Present(values[..i]), val); } else { JoinedOne(val); Empty([val]); Empty(text.value); }
      b := b + text.value;
    }
    assert values[..|values|] == values;
    key := Ok(b);
  }

  lemma PresentLength(vs: seq<Option<Any>>)
    ensures |Present(vs)| == |vs|
  {
  }
}

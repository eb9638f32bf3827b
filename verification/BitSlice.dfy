/** Cutting a run of bits out of a byte slice. */
module BitSlice {
  import opened Bytes

  /** Bit `i` of a byte, the highest first. */
  function Bit(b: bv8, i: nat): bool
    requires i < 8
  {
    match i
    case 0 => b & 0x80 != 0
    case 1 => b & 0x40 != 0
    case 2 => b & 0x20 != 0
    case 3 => b & 0x10 != 0
    case 4 => b & 0x08 != 0
    case 5 => b & 0x04 != 0
    case 6 => b & 0x02 != 0
    case _ => b & 0x01 != 0
  }

  function Left(b: bv8, s: nat): bv8
    requires s < 8
  {
    match s
    case 0 => b
    case 1 => b << 1
    case 2 => b << 2
    case 3 => b << 3
    case 4 => b << 4
    case 5 => b << 5
    case 6 => b << 6
    case _ => b << 7
  }

  /** A shift by eight leaves nothing. */
  function Right(b: bv8, s: nat): bv8
    requires s <= 8
  {
    match s
    case 0 => b
    case 1 => b >> 1
    case 2 => b >> 2
    case 3 => b >> 3
    case 4 => b >> 4
    case 5 => b >> 5
    case 6 => b >> 6
    case 7 => b >> 7
    case _ => 0
  }

  lemma LeftBit(b: bv8, s: nat, j: nat)
    requires s < 8 && j < 8
    ensures Bit(Left(b, s), j) == (s + j < 8 && Bit(b, s + j))
  {
  }

  lemma RightBit(b: bv8, s: nat, j: nat)
    requires s <= 8 && j < 8
    ensures Bit(Right(b, s), j) == (j >= s && Bit(b, j - s))
  {
  }

  lemma OrBit(a: bv8, b: bv8, j: nat)
    requires j < 8
    ensures Bit(a | b, j) == (Bit(a, j) || Bit(b, j))
  {
  }

  lemma AndBit(a: bv8, b: bv8, j: nat)
    requires j < 8
    ensures Bit(a & b, j) == (Bit(a, j) && Bit(b, j))
  {
  }

  lemma OnesBit(j: nat)
    requires j < 8
    ensures Bit(0xff, j) && !Bit(0, j)
  {
  }

  function Byte(d: seq<bv8>, i: nat): bv8
  {
    if i < |d| then d[i] else 0
  }

  /** Bit `k` of the data, zero past its end. */
  predicate BitAt(d: seq<bv8>, k: nat)
  {
    Bit(Byte(d, k / 8), k % 8)
  }

  function CeilBytes(n: nat): nat
  {
    (n + 7) / 8
  }

  /** Bit `k` of the slice: the data's, except in a last partial byte, which is aligned to the right or to the left. */
  predicate Wanted(d: seq<bv8>, offset: nat, length: nat, shift: bool, k: nat)
  {
    var full, part := length / 8 * 8, length % 8;
    if k < full then BitAt(d, offset + k)
    else if shift then k - full >= 8 - part && BitAt(d, offset + k - (8 - part))
    else k < length && BitAt(d, offset + k)
  }

  /** Two neighbouring bytes moved left by `s` bits. */
  function Combine(a: bv8, b: bv8, s: nat): bv8
    requires s < 8
  {
    Left(a, s) | Right(b, 8 - s)
  }

  lemma CombineBit(a: bv8, b: bv8, s: nat, j: nat)
    requires s < 8 && j < 8
    ensures Bit(Combine(a, b, s), j) == if s + j < 8 then Bit(a, s + j) else Bit(b, s + j - 8)
  {
    hide Bit, Left, Right;
    OrBit(Left(a, s), Right(b, 8 - s), j);
    LeftBit(a, s, j);
    RightBit(b, 8 - s, j);
  }

  lemma DivMod8(i: nat, r: nat)
    requires r < 8
    ensures (8 * i + r) / 8 == i && (8 * i + r) % 8 == r
  {
  }

  /** Byte `i` of the moved data holds the data's bits from `s + 8 * i` on. */
  lemma MovedBit(u: seq<bv8>, s: nat, i: nat, j: nat)
    requires s < 8 && j < 8
    ensures Bit(Combine(Byte(u, i), Byte(u, i + 1), s), j) == BitAt(u, s + 8 * i + j)
  {
    hide Bit, Combine, Byte;
    CombineBit(Byte(u, i), Byte(u, i + 1), s, j);
    if s + j < 8 {
      DivMod8(i, s + j);
    } else {
      DivMod8(i + 1, s + j - 8);
    }
  }

  /** A slice that reaches as far as the bits asked for agrees with the data. */
  lemma SliceBit(d: seq<bv8>, start: nat, end: nat, k: nat)
    requires start <= end <= |d| && (k < 8 * (end - start) || end == |d|)
    ensures BitAt(d[start..end], k) == BitAt(d, 8 * start + k)
  {
    hide Bit;
    DivMod8(start + k / 8, k % 8);
    assert 8 * start + k == 8 * (start + k / 8) + k % 8;
  }

  lemma LastRight(b: bv8, part: nat, j: nat)
    requires 0 < part < 8 && j < 8
    ensures Bit(Right(b, 8 - part), j) == (j >= 8 - part && Bit(b, j - (8 - part)))
  {
    hide Bit, Right;
    RightBit(b, 8 - part, j);
  }

  lemma LastMask(b: bv8, part: nat, j: nat)
    requires 0 < part < 8 && j < 8
    ensures Bit(b & Left(0xff, 8 - part), j) == (j < part && Bit(b, j))
  {
    hide Bit, Left;
    AndBit(b, Left(0xff, 8 - part), j);
    LeftBit(0xff, 8 - part, j);
    if j < part { OnesBit(8 - part + j); }
  }

  lemma MaskAll(b: bv8)
    ensures b & Left(0xff, 0) == b && Right(b, 0) == b
  {
  }

  lemma CombineIs(u: seq<bv8>, i: nat, s: nat)
    requires i < |u| && s < 8
    ensures Combine(Byte(u, i), Byte(u, i + 1), s) == if i + 1 < |u| then Left(u[i], s) | Right(u[i + 1], 8 - s)
            else Left(u[i], s)
  {
    if i + 1 >= |u| {
      NothingRight(8 - s);
      OrNothing(Left(u[i], s));
    }
  }

  lemma NothingRight(s: nat)
    requires s <= 8
    ensures Right(0, s) == 0
  {
  }

  lemma NothingLeft(s: nat)
    requires s < 8
    ensures Left(0, s) == 0
  {
  }

  lemma OrNothing(b: bv8)
    ensures b | 0 == b
  {
  }

  lemma CombineZero(s: nat)
    requires s < 8
    ensures Combine(0, 0, s) == 0
  {
    NothingRight(8 - s);
    NothingLeft(s);
    OrNothing(0);
  }

  /** The bytes that `length` bits from `offset` touch, as far as the data goes. */
  predicate Reaches(d: seq<bv8>, offset: nat, length: nat, used: seq<bv8>)
  {
    var start, end := offset / 8, CeilBytes(offset + length);
    start <= |d| && used == d[start..if end > |d| then |d| else end]
  }

  lemma UsedBit(d: seq<bv8>, offset: nat, length: nat, used: seq<bv8>, k: nat)
    requires Reaches(d, offset, length, used) && k < length
    ensures BitAt(used, offset % 8 + k) == BitAt(d, offset + k)
  {
    hide BitAt;
    var start, end := offset / 8, CeilBytes(offset + length);
    assert 8 * start + offset % 8 == offset;
    SliceBit(d, start, if end > |d| then |d| else end, offset % 8 + k);
  }

  lemma Whole(d: seq<bv8>, offset: nat, length: nat, shift: bool, used: seq<bv8>, out: seq<bv8>)
    requires Reaches(d, offset, length, used) && offset % 8 == 0 && length % 8 == 0
    requires |out| == length / 8 && forall x :: 0 <= x < |out| ==> out[x] == Byte(used, x)
    ensures |out| == CeilBytes(length) && forall k :: 0 <= k < 8 * |out| ==>
              BitAt(out, k) == Wanted(d, offset, length, shift, k)
  {
    hide Bit, Reaches;
    forall k | 0 <= k < 8 * |out| ensures BitAt(out, k) == Wanted(d, offset, length, shift, k) {
      UsedBit(d, offset, length, used, k);
      assert out[k / 8] == Byte(used, k / 8);
    }
  }

  /** The last byte as the final pass leaves it. */
  function LastByte(b: bv8, part: nat, shift: bool): bv8
    requires part < 8
  {
    if shift then Right(b, (8 - part) % 8) else b & Left(0xff, (8 - part) % 8)
  }

  lemma LastBit(b: bv8, part: nat, shift: bool, j: nat)
    requires part < 8 && j < 8
    ensures Bit(LastByte(b, part, shift), j)
            == if part == 0 then Bit(b, j)
               else if shift then j >= 8 - part && Bit(b, j - (8 - part)) else j < part && Bit(b, j)
  {
    hide Bit, Left, Right;
    if part == 0 {
      MaskAll(b);
    } else if shift {
      LastRight(b, part, j);
    } else {
      LastMask(b, part, j);
    }
  }

  predicate Moved(used: seq<bv8>, s: nat, moved: seq<bv8>)
    requires s < 8
  {
    forall x :: 0 <= x < |moved| ==> moved[x] == Combine(Byte(used, x), Byte(used, x + 1), s)
  }

  lemma MovedIsData(d: seq<bv8>, offset: nat, length: nat, used: seq<bv8>, moved: seq<bv8>, i: nat, j: nat)
    requires Reaches(d, offset, length, used) && Moved(used, offset % 8, moved) && i < |moved| && j < 8
             && 8 * i + j < length
    ensures Bit(moved[i], j) == BitAt(d, offset + 8 * i + j)
  {
    hide Bit, Combine, Reaches, BitAt, Byte;
    MovedBit(used, offset % 8, i, j);
    UsedBit(d, offset, length, used, 8 * i + j);
  }

  lemma Cut(d: seq<bv8>, offset: nat, length: nat, shift: bool, used: seq<bv8>, moved: seq<bv8>, out: seq<bv8>)
    requires Reaches(d, offset, length, used) && length > 0 && |moved| == CeilBytes(length)
             && Moved(used, offset % 8, moved)
    requires out == moved[|moved| - 1 := LastByte(moved[|moved| - 1], length % 8, shift)]
    ensures forall k :: 0 <= k < 8 * |out| ==> BitAt(out, k) == Wanted(d, offset, length, shift, k)
  {
    forall k | 0 <= k < 8 * |out| ensures BitAt(out, k) == Wanted(d, offset, length, shift, k) {
      CutBit(d, offset, length, shift, used, moved, out, k);
    }
  }

  lemma CutBit(d: seq<bv8>, offset: nat, length: nat, shift: bool, used: seq<bv8>, moved: seq<bv8>, out: seq<bv8>,
               k: nat)
    requires Reaches(d, offset, length, used) && length > 0 && |moved| == CeilBytes(length)
             && Moved(used, offset % 8, moved)
    requires out == moved[|moved| - 1 := LastByte(moved[|moved| - 1], length % 8, shift)] && k < 8 * |out|
    ensures BitAt(out, k) == Wanted(d, offset, length, shift, k)
  {
    hide Bit, Reaches, Moved, LastByte, BitAt;
    var i, j, last, part := k / 8, k % 8, |moved| - 1, length % 8;
    assert k == 8 * i + j;
    OutBit(out, k);
    if i < last {
      MovedIsData(d, offset, length, used, moved, i, j);
    } else {
      LastBit(moved[last], part, shift, j);
      if part == 0 {
        MovedIsData(d, offset, length, used, moved, i, j);
      } else if shift {
        if j >= 8 - part { MovedIsData(d, offset, length, used, moved, i, j - (8 - part)); }
      } else {
        if j < part { MovedIsData(d, offset, length, used, moved, i, j); }
      }
    }
  }

  lemma OutBit(out: seq<bv8>, k: nat)
    requires k < 8 * |out|
    ensures BitAt(out, k) == Bit(out[k / 8], k % 8)
  {
  }

  lemma CeilIs(n: nat)
    ensures CeilBytes(n) == n / 8 + (if n % 8 > 0 then 1 else 0)
  {
  }

  lemma CeilGrows(a: nat, b: nat)
    ensures a / 8 <= CeilBytes(a + b) && (b > 0 ==> CeilBytes(b) > 0)
    ensures a % 8 == 0 && b % 8 == 0 ==> CeilBytes(a + b) == a / 8 + b / 8
  {
  }

  /** The simple case: whole bytes, with zeros for those past the end. */
  method CopyBytes(used: seq<bv8>, size: nat) returns (out: array<bv8>)
    requires |used| <= size
    ensures fresh(out) && out.Length == size && forall x :: 0 <= x < size ==> out[x] == Byte(used, x)
  {
    out := new bv8[size](i => 0);
    for i := 0 to |used|
      invariant forall x :: 0 <= x < size ==> out[x] == if x < i then used[x] else 0
    {
      out[i] := used[i];
    }
  }

  /** The first pass: every byte takes the bits that the offset moves into it. */
  method ShiftBytes(used: seq<bv8>, size: nat, shiftSize: nat) returns (out: array<bv8>)
    requires shiftSize < 8
    ensures fresh(out) && out.Length == size && Moved(used, shiftSize, out[..])
  {
    hide Bit, Left, Right, Combine;
    out := new bv8[size](i => 0);
    var i := 0;
    while i < size && i < |used|
      invariant 0 <= i <= size
      invariant forall x :: 0 <= x < i ==> out[x] == Combine(Byte(used, x), Byte(used, x + 1), shiftSize)
      invariant forall x :: i <= x < size ==> out[x] == 0
    {
      var left := Left(used[i], shiftSize);
      out[i] := left;
      if i + 1 < |used| {
        var right := Right(used[i + 1], 8 - shiftSize);
        out[i] := out[i] | right;
      }
      CombineIs(used, i, shiftSize);
      i := i + 1;
    }
    CombineZero(shiftSize);
  }

  /** The bytes touched, and how many of them are missing. */
  method TouchedBytes(d: seq<bv8>, offset: nat, length: nat) returns (used: seq<bv8>, missing: int)
    requires 8 * |d| >= offset
    ensures Reaches(d, offset, length, used)
    ensures missing <= 0 ==> |used| == CeilBytes(offset + length) - offset / 8
    ensures |used| <= CeilBytes(offset + length) - offset / 8
  {
    CeilIs(offset + length);
    CeilGrows(offset, length);
    hide CeilBytes;
    var start, end := offset / 8, (offset + length) / 8;
    if (offset + length) % 8 > 0 {
      end := end + 1;
    }
    missing := end - |d|;
    if missing > 0 {
      end := |d|;
    }
    used := d[start..end];
  }

  /** The final pass: the last byte keeps only the bits asked for. */
  method TrimLast(out: array<bv8>, part: nat, shift: bool)
    requires out.Length > 0 && part < 8
    modifies out
    ensures out[..] == old(out[..])[out.Length - 1 := LastByte(old(out[out.Length - 1]), part, shift)]
  {
    hide Left, Right;
    var last := out.Length - 1;
    if shift {
      out[last] := Right(out[last], (8 - part) % 8);
    } else {
      out[last] := out[last] & Left(0xff, (8 - part) % 8);
    }
  }

  /** Bits `offset` to `offset + length` of the data, None when the offset is past the end or nothing is asked for. */
  method GetBytes(d: seq<bv8>, offset: nat, length: nat, shift: bool) returns (r: Option<seq<bv8>>)
    ensures r.None? <==> 8 * |d| < offset || length == 0
    ensures r.Some? ==>
              |r.value| == CeilBytes(length) && forall k :: 0 <= k < 8 * |r.value| ==>
                  BitAt(r.value, k) == Wanted(d, offset, length, shift, k)
  {
    hide *;
    if |d| * 8 < offset || length == 0 {
      return None;
    }
    CeilIs(length);
    CeilGrows(offset, length);
    var shiftSize, part, size := offset % 8, length % 8, length / 8;
    if part > 0 {
      size := size + 1;
    }
    var used, missing := TouchedBytes(d, offset, length);
    if shiftSize == 0 && part == 0 {
      if missing > 0 {
        var padded := CopyBytes(used, size);
        Whole(d, offset, length, shift, used, padded[..]);
        return Some(padded[..]);
      }
      ByteIs(used);
      Whole(d, offset, length, shift, used, used);
      return Some(used);
    }
    var out := ShiftBytes(used, size, shiftSize);
    ghost var moved := out[..];
    TrimLast(out, part, shift);
    Cut(d, offset, length, shift, used, moved, out[..]);
    r := Some(out[..]);
  }

  lemma ByteIs(u: seq<bv8>)
    ensures forall x :: 0 <= x < |u| ==> u[x] == Byte(u, x)
  {
  }
}

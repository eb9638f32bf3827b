/** Machine integers, big-endian words and the byte buffer that every codec reads from and appends to. */
module Bytes {

  type u8 = x: int | 0 <= x < 0x100
  type u16 = x: int | 0 <= x < 0x1_0000
  type u32 = x: int | 0 <= x < 0x1_0000_0000
  type u64 = x: int | 0 <= x < 0x1_0000_0000_0000_0000
  type bytes = seq<u8>

  datatype Option<+T> = None | Some(value: T)

  // ---------- big-endian words ----------

  function U16(v: u16): (b: bytes)
    ensures |b| == 2
  {
    [v / 0x100, v % 0x100]
  }

  function U32(v: u32): (b: bytes)
    ensures |b| == 4
  {
    [v / 0x100_0000, v / 0x1_0000 % 0x100, v / 0x100 % 0x100, v % 0x100]
  }

  /** The big-endian word at the front of `s`. */
  function HeadU16(s: bytes): u16
    requires |s| >= 2
  {
    s[0] as int * 0x100 + s[1] as int
  }

  function HeadU32(s: bytes): u32
    requires |s| >= 4
  {
    s[0] as int * 0x100_0000 + s[1] as int * 0x1_0000 + s[2] as int * 0x100 + s[3] as int
  }

  /** Reading back a word that was just written returns it and leaves what followed. */
  lemma ReadBackU16(v: u16, rest: bytes)
    ensures var s := U16(v) + rest;
            |s| == 2 + |rest| && HeadU16(s) == v && s[2..] == rest
  {
  }

  lemma ReadBackU32(v: u32, rest: bytes)
    ensures var s := U32(v) + rest;
            |s| == 4 + |rest| && HeadU32(s) == v && s[4..] == rest
  {
    var s := U32(v) + rest;
    assert s[0] == v / 0x100_0000 && s[1] == v / 0x1_0000 % 0x100 && s[2] == v / 0x100 % 0x100 && s[3] == v % 0x100;
    assert v / 0x1_0000 == v / 0x100_0000 * 0x100 + v / 0x1_0000 % 0x100;
    assert v / 0x100 == v / 0x1_0000 * 0x100 + v / 0x100 % 0x100;
  }

  lemma Assoc<T>(a: seq<T>, b: seq<T>, c: seq<T>)
    ensures a + b + c == a + (b + c)
  {
  }

  lemma Empty<T>(s: seq<T>)
    ensures [] + s == s && s + [] == s
  {
  }

  // ---------- slices that never run past the end ----------

  /** The first `n` bytes, or all of them when there are fewer. */
  function Take(s: bytes, n: nat): (t: bytes)
    ensures |t| <= n && t <= s
  {
    if n <= |s| then s[..n] else s
  }

  function Drop(s: bytes, n: nat): (t: bytes)
    ensures |s| == |Take(s, n)| + |t|
    ensures Take(s, n) + t == s
  {
    if n <= |s| then s[n..] else []
  }

  lemma TakeDropAppend(a: bytes, b: bytes)
    ensures Take(a + b, |a|) == a && Drop(a + b, |a|) == b
  {
  }

  function Zeros(n: nat): (z: bytes)
    ensures |z| == n && forall i :: 0 <= i < n ==> z[i] == 0
  {
    seq(n, i => 0)
  }

  // ---------- the buffer ----------

  /** Go's bytes.Buffer: `data` is the part that has not been read yet. */
  class Buffer {
    var data: bytes

    constructor (initial: bytes)
      ensures data == initial
    {
      data := initial;
    }

    /** Removes and returns up to `n` bytes; a short buffer gives what it has. */
    method Next(n: nat) returns (b: bytes)
      modifies this
      ensures b == Take(old(data), n) && data == Drop(old(data), n)
    {
      if n <= |data| {
        b, data := data[..n], data[n..];
      } else {
        b, data := data, [];
      }
    }

    /** A failed read has already consumed what was left. */
    method ReadU8() returns (r: Option<u8>)
      modifies this
      ensures |old(data)| >= 1 ==> r == Some(old(data)[0]) && data == old(data)[1..]
      ensures |old(data)| < 1 ==> r == None && data == []
    {
      var b := Next(1);
      r := if |b| < 1 then None else Some(b[0]);
    }

    method ReadU16() returns (r: Option<u16>)
      modifies this
      ensures |old(data)| >= 2 ==> r == Some(HeadU16(old(data))) && data == old(data)[2..]
      ensures |old(data)| < 2 ==> r == None && data == []
    {
      var b := Next(2);
      r := if |b| < 2 then None else Some(HeadU16(b));
    }

    method ReadU32() returns (r: Option<u32>)
      modifies this
      ensures |old(data)| >= 4 ==> r == Some(HeadU32(old(data))) && data == old(data)[4..]
      ensures |old(data)| < 4 ==> r == None && data == []
    {
      var b := Next(4);
      r := if |b| < 4 then None else Some(HeadU32(b));
    }

    method Write(b: bytes)
      modifies this
      ensures data == old(data) + b
    {
      data := data + b;
    }

    method WriteU8(v: u8)
      modifies this
      ensures data == old(data) + [v]
    {
      data := data + [v];
    }

    method WriteU16(v: u16)
      modifies this
      ensures data == old(data) + U16(v)
    {
      data := data + [v / 0x100, v % 0x100];
    }

    method WriteU32(v: u32)
      modifies this
      ensures data == old(data) + U32(v)
    {
      data := data + [v / 0x100_0000, v / 0x1_0000 % 0x100, v / 0x100 % 0x100, v % 0x100];
    }
  }
}

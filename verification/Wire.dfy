/** Octets on the wire, written out: network byte order and padding to four octets. */
module Wire {
  import opened Bytes

  /** A 16-bit word, high octet first. */
  function W16(n: nat): bytes
  {
    [n / 256 % 256, n % 256]
  }

  /** A 32-bit word, high octet first. */
  function W32(n: nat): bytes
  {
    [n / 16777216 % 256, n / 65536 % 256, n / 256 % 256, n % 256]
  }

  /** Zeros up to the next multiple of four. */
  function Padded(b: bytes): bytes
  {
    match |b| % 4
    case 0 => b
    case 1 => b + [0, 0, 0]
    case 2 => b + [0, 0]
    case _ => b + [0]
  }

  /** The words that every codec writes and reads are big-endian. */
  lemma WordsAreBigEndian(n: u16, m: u32)
    ensures U16(n) == W16(n) && U32(m) == W32(m)
    ensures HeadU16(W16(n)) == n && HeadU32(W32(m)) == m
  {
    ReadBackU16(n, []);
    ReadBackU32(m, []);
    Empty(U16(n));
    Empty(U32(m));
  }

  lemma PaddedIs(b: bytes, pad: nat)
    requires pad < 4 && (|b| + pad) % 4 == 0
    ensures Padded(b) == b + Zeros(pad)
  {
    assert |b| % 4 == (4 - pad) % 4;
    if pad == 0 { Empty(b); }
    assert Zeros(1) == [0] && Zeros(2) == [0, 0] && Zeros(3) == [0, 0, 0];
  }

  // ---------- words inside longer octets ----------

  lemma Front(a: bytes, rest: bytes)
    ensures |a + rest| == |a| + |rest| && (a + rest)[|a|..] == rest
    ensures forall i :: 0 <= i < |a| ==> (a + rest)[i] == a[i]
    ensures forall i, j :: 0 <= i <= j <= |a| ==> (a + rest)[i..j] == a[i..j]
  {
  }

  lemma WordFront(n: u16, rest: bytes)
    ensures var s := W16(n) + rest; |s| == 2 + |rest| && HeadU16(s) == n && s[2..] == rest
  {
    WordsAreBigEndian(n, 0);
    ReadBackU16(n, rest);
  }

  /** The word at an offset is the two octets there. */
  lemma WordAt(s: bytes, i: nat, n: u16)
    requires i + 2 <= |s| && s[i..i + 2] == W16(n)
    ensures HeadU16(s[i..]) == n
  {
    assert s[i..] == W16(n) + s[i + 2..];
    WordFront(n, s[i + 2..]);
  }

  /** The octets of a word, each on its own. */
  lemma FourOctets(a: u8, b: u8, c: u8, d: u8)
    ensures W32(a as int * 16777216 + b as int * 65536 + c as int * 256 + d as int) == [a, b, c, d]
  {
    var w := a as int * 16777216 + b as int * 65536 + c as int * 256 + d as int;
    assert w / 256 == a as int * 65536 + b as int * 256 + c as int;
    assert w / 65536 == a as int * 256 + b as int;
    assert w / 16777216 == a as int;
  }
}

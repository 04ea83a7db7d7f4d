/** Fixed-width quantities, held as numbers so that every wrap is written out. */
module Words {
  import opened Arithmetic

  type byte = x: nat | x < 0x100
  type word = x: nat | x < 0x1_0000
  type long = x: nat | x < 0x1_0000_0000

  function Low(w: word): byte { w % 0x100 }
  function High(w: word): byte { w / 0x100 }
  function Join(high: byte, low: byte): word { 0x100 * high + low }

  /** A big-endian word in a run of bytes. */
  function U16(b: seq<byte>, p: nat): word
    requires p + 2 <= |b|
  {
    Join(b[p], b[p + 1])
  }

  function Put16(v: word): seq<byte> { [High(v), Low(v)] }

  lemma Halves(v: word)
    ensures Join(High(v), Low(v)) == v
  {
  }

  lemma Relane(high: byte, low: byte)
    ensures High(Join(high, low)) == high && Low(Join(high, low)) == low
  {
  }

  lemma LowLow(v: word)
    ensures Low(Low(v)) == Low(v)
  {
  }

  /** Big-endian bytes of a longword, and back. */
  function LongBytes(v: long): (s: seq<byte>)
    ensures |s| == 4
  {
    [v / 0x100_0000, v / 0x1_0000 % 0x100, v / 0x100 % 0x100, v % 0x100]
  }

  function LongOf(s: seq<byte>): long
    requires |s| == 4
  {
    0x100_0000 * (s[0] as int) + 0x1_0000 * (s[1] as int) + 0x100 * (s[2] as int) + s[3] as int
  }

  lemma LongRoundTrip(v: long)
    ensures LongOf(LongBytes(v)) == v
  {
    assert v / 0x1_0000 == 0x100 * (v / 0x100_0000) + v / 0x1_0000 % 0x100;
    assert v / 0x100 == 0x100 * (v / 0x1_0000) + v / 0x100 % 0x100;
  }

  lemma BytesOfLong(s: seq<byte>)
    requires |s| == 4
    ensures LongBytes(LongOf(s)) == s
  {
    var v := LongOf(s);
    assert v / 0x100_0000 == s[0] && v / 0x1_0000 == 0x100 * s[0] as nat + s[1];
    assert v / 0x100 == 0x1_0000 * s[0] as nat + 0x100 * s[1] as nat + s[2];
  }

  /** The first byte that differs decides: the most significant comes first. */
  lemma FirstByteDecides(s: seq<byte>, t: seq<byte>, k: nat)
    requires |s| == |t| == 4 && k < 4 && s[..k] == t[..k] && s[k] < t[k]
    ensures LongOf(s) < LongOf(t)
    ensures k < 2 ==> U16(s, 0) < U16(t, 0)
  {
    assert forall i :: 0 <= i < k ==> s[i] == s[..k][i] == t[i];
  }

  /** The bytes `t` stand in `b` at `p`. */
  predicate Lies(b: seq<byte>, p: nat, t: seq<byte>) {
    p + |t| <= |b| && b[p..p + |t|] == t
  }

  lemma LiesTogether(b: seq<byte>, p: nat, s: seq<byte>, t: seq<byte>)
    requires Lies(b, p, s + t)
    ensures Lies(b, p, s) && Lies(b, p + |s|, t)
  {
    assert (s + t)[..|s|] == s && (s + t)[|s|..] == t;
    assert b[p..p + |s|] == b[p..p + |s + t|][..|s|];
    assert b[p + |s|..p + |s| + |t|] == b[p..p + |s + t|][|s|..];
  }

  // ----- bits -----------------------------------------------------------------------

  function Bit(b: bool, weight: nat): nat { if b then weight else 0 }

  /** `s[i]` is bit i. */
  function ByteOf(s: seq<bool>): byte
    requires |s| == 8
  {
    Bit(s[0], 1) + Bit(s[1], 2) + Bit(s[2], 4) + Bit(s[3], 8) + Bit(s[4], 16) + Bit(s[5], 32) + Bit(s[6], 64)
    + Bit(s[7], 128)
  }

  lemma ByteBit(s: seq<bool>, i: nat)
    requires |s| == 8 && i < 8
    ensures BitSet(ByteOf(s), i) <==> s[i]
  {
    BitFrom(s, 8, i);
    ByteIsBinary(s);
  }

  /** The number whose bits are the first `n` of `s`. */
  function Binary(s: seq<bool>, n: nat): (v: nat)
    requires n <= |s|
    ensures v < Pow2(n)
  {
    if n == 0 then 0 else Binary(s, n - 1) + if s[n - 1] then Pow2(n - 1) else 0
  }

  lemma {:induction false} BitFrom(s: seq<bool>, n: nat, i: nat)
    requires i < n <= |s|
    ensures BitSet(Binary(s, n), i) <==> s[i]
  {
    var top := if s[n - 1] then 1 else 0;
    assert Binary(s, n) == top * Pow2(n - 1) + Binary(s, n - 1);
    if i < n - 1 {
      LowerBit(top, Binary(s, n - 1), n - 1, i);
      BitFrom(s, n - 1, i);
    } else {
      UpperBit(top, Binary(s, n - 1), n - 1, i);
    }
  }

  lemma ByteIsBinary(s: seq<bool>)
    requires |s| == 8
    ensures Binary(s, 8) == ByteOf(s)
  {
    assert Binary(s, 8) == Binary(s, 7) + Bit(s[7], 128) && Binary(s, 7) == Binary(s, 6) + Bit(s[6], 64);
    assert Binary(s, 6) == Binary(s, 5) + Bit(s[5], 32) && Binary(s, 5) == Binary(s, 4) + Bit(s[4], 16);
    assert Binary(s, 4) == Binary(s, 3) + Bit(s[3], 8) && Binary(s, 3) == Binary(s, 2) + Bit(s[2], 4);
    assert Binary(s, 2) == Binary(s, 1) + Bit(s[1], 2) && Binary(s, 1) == Bit(s[0], 1);
  }
}

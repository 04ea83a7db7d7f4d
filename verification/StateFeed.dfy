/**
 * The state hash's feed: what is absorbed, in what order, and what two equal feeds
 * mean. Tagged scalars name their own width; raw runs do not, and neither says how
 * long it is, so every run's length must be settled by something fed before it.
 */
module StateFeed {
  import opened Words

  type quad = x: nat | x < 0x1_0000_0000_0000_0000

  datatype Scalar = U8(v8: byte) | U16(v16: word) | U32(v32: long) | U64(v64: quad) | Time(at: quad)

  function Bool(b: bool): Scalar { U8(if b then 1 else 0) }

  /** One stretch of a feed: scalars one after another, or a block of raw bytes. */
  datatype Item = Scalars(fields: seq<Scalar>) | Raw(bytes: seq<byte>)

  function Le2(v: word): seq<byte> { [v % 0x100, v / 0x100] }
  function Le4(v: long): seq<byte> { Le2(v % 0x1_0000) + Le2(v / 0x1_0000) }
  function Le8(v: quad): seq<byte> { Le4(v % 0x1_0000_0000) + Le4(v / 0x1_0000_0000) }

  /** The tag, then the value little-endian. */
  function Tagged(s: Scalar): seq<byte> {
    match s
    case U8(v) => [0x01, v]
    case U16(v) => [0x02] + Le2(v)
    case U32(v) => [0x04] + Le4(v)
    case U64(v) => [0x08] + Le8(v)
    case Time(v) => [0x10] + Le8(v)
  }

  function Line(fields: seq<Scalar>): seq<byte> {
    if fields == [] then [] else Tagged(fields[0]) + Line(fields[1..])
  }

  function Encode(i: Item): seq<byte> {
    match i case Scalars(fields) => Line(fields) case Raw(bytes) => bytes
  }

  function Stream(items: seq<Item>): seq<byte> {
    if items == [] then [] else Encode(items[0]) + Stream(items[1..])
  }

  // ----- decoding is forced ---------------------------------------------------------

  lemma Le2Injective(v: word, w: word)
    requires Le2(v) == Le2(w)
    ensures v == w
  {
  }

  lemma Le4Injective(v: long, w: long)
    requires Le4(v) == Le4(w)
    ensures v == w
  {
    assert Le4(v)[..2] == Le2(v % 0x1_0000) && Le4(w)[..2] == Le2(w % 0x1_0000);
    assert Le4(v)[2..] == Le2(v / 0x1_0000) && Le4(w)[2..] == Le2(w / 0x1_0000);
    Le2Injective(v % 0x1_0000, w % 0x1_0000);
    Le2Injective(v / 0x1_0000, w / 0x1_0000);
  }

  lemma Le8Injective(v: quad, w: quad)
    requires Le8(v) == Le8(w)
    ensures v == w
  {
    assert Le8(v)[..4] == Le4(v % 0x1_0000_0000) && Le8(w)[..4] == Le4(w % 0x1_0000_0000);
    assert Le8(v)[4..] == Le4(v / 0x1_0000_0000) && Le8(w)[4..] == Le4(w / 0x1_0000_0000);
    Le4Injective(v % 0x1_0000_0000, w % 0x1_0000_0000);
    Le4Injective(v / 0x1_0000_0000, w / 0x1_0000_0000);
  }

  function Width(s: Scalar): nat {
    match s case U8(_) => 2 case U16(_) => 3 case U32(_) => 5 case U64(_) => 9 case Time(_) => 9
  }

  lemma TaggedInjective(s: Scalar, t: Scalar)
    requires Tagged(s) == Tagged(t)
    ensures s == t
  {
    assert Tagged(s)[0] == Tagged(t)[0];
    assert Tagged(s)[1..] == Tagged(t)[1..];
    match s
    case U8(v) => assert Tagged(s)[1] == Tagged(t)[1];
    case U16(v) => Le2Injective(v, t.v16);
    case U32(v) => Le4Injective(v, t.v32);
    case U64(v) => Le8Injective(v, t.v64);
    case Time(v) => Le8Injective(v, t.at);
  }

  /** The first byte of what is left settles the next scalar's width, so two feeds
      that agree agree on it and on the rest. */
  lemma HeadScalar(s: Scalar, x: seq<byte>, t: Scalar, y: seq<byte>)
    requires Tagged(s) + x == Tagged(t) + y
    ensures s == t && x == y
  {
    var both := Tagged(s) + x;
    assert |Tagged(s)| == Width(s) && |Tagged(t)| == Width(t);
    assert both[0] == Tagged(s)[0] == Tagged(t)[0];
    assert both[..Width(s)] == Tagged(s) && both[..Width(t)] == Tagged(t);
    assert both[Width(s)..] == x && both[Width(t)..] == y;
    TaggedInjective(s, t);
  }

  lemma {:induction false} LineInjective(a: seq<Scalar>, x: seq<byte>, b: seq<Scalar>, y: seq<byte>)
    requires |a| == |b| && Line(a) + x == Line(b) + y
    ensures a == b && x == y
  {
    hide Tagged;
    if a != [] {
      assert Line(a) + x == Tagged(a[0]) + (Line(a[1..]) + x);
      assert Line(b) + y == Tagged(b[0]) + (Line(b[1..]) + y);
      HeadScalar(a[0], Line(a[1..]) + x, b[0], Line(b[1..]) + y);
      LineInjective(a[1..], x, b[1..], y);
    } else {
      assert Line(a) + x == x && Line(b) + y == y;
    }
  }

  /** Same form and same length: what a decoder must know to go on. */
  predicate SameKind(a: Item, b: Item) {
    match (a, b)
    case (Scalars(s), Scalars(t)) => |s| == |t|
    case (Raw(s), Raw(t)) => |s| == |t|
    case _ => false
  }

  /** Whatever two feeds disagree on, it is not how to read the next item after
      agreeing so far. */
  predicate Readable(a: seq<Item>, b: seq<Item>) {
    |a| == |b| && forall i :: 0 <= i < |a| && a[..i] == b[..i] ==> SameKind(a[i], b[i])
  }

  lemma HeadItem(a: Item, x: seq<byte>, b: Item, y: seq<byte>)
    requires SameKind(a, b) && Encode(a) + x == Encode(b) + y
    ensures a == b && x == y
  {
    match a
    case Scalars(s) => LineInjective(s, x, b.fields, y);
    case Raw(s) =>
      var both := s + x;
      assert both[..|s|] == s && both[..|s|] == b.bytes && both[|s|..] == x && both[|s|..] == y;
  }

  /** Equal bytes mean equal items and equal remainders, so feeds one after another into
      one accumulator can be told apart one after another. */
  lemma {:induction false} StreamInjective(a: seq<Item>, x: seq<byte>, b: seq<Item>, y: seq<byte>)
    requires Readable(a, b) && Stream(a) + x == Stream(b) + y
    ensures a == b && x == y
  {
    hide Encode;
    if a == [] {
      assert Stream(a) + x == x && Stream(b) + y == y;
    } else {
      assert a[..0] == b[..0];
      Regroup(Encode(a[0]), Stream(a[1..]), x);
      Regroup(Encode(b[0]), Stream(b[1..]), y);
      HeadItem(a[0], Stream(a[1..]) + x, b[0], Stream(b[1..]) + y);
      ReadableRest(a, b);
      StreamInjective(a[1..], x, b[1..], y);
    }
  }

  lemma Regroup(s: seq<byte>, t: seq<byte>, u: seq<byte>)
    ensures s + t + u == s + (t + u)
  {
  }

  lemma ReadableRest(a: seq<Item>, b: seq<Item>)
    requires Readable(a, b) && a != [] && a[0] == b[0]
    ensures Readable(a[1..], b[1..])
  {
    forall i | 0 <= i < |a[1..]| && a[1..][..i] == b[1..][..i]
      ensures SameKind(a[1..][i], b[1..][i])
    {
      assert a[..i + 1] == [a[0]] + a[1..][..i] && b[..i + 1] == [b[0]] + b[1..][..i];
    }
  }

  /** A feed may be cut anywhere into scalars without changing a byte. */
  lemma {:induction false} LineConcat(a: seq<Scalar>, b: seq<Scalar>)
    ensures Line(a + b) == Line(a) + Line(b)
  {
    if a == [] {
      assert a + b == b;
    } else {
      assert (a + b)[1..] == a[1..] + b;
      LineConcat(a[1..], b);
    }
  }

  lemma LineSnoc(fields: seq<Scalar>, i: nat)
    requires i < |fields|
    ensures Line(fields[..i + 1]) == Line(fields[..i]) + Tagged(fields[i])
  {
    hide Tagged;
    LineConcat(fields[..i], [fields[i]]);
    assert fields[..i] + [fields[i]] == fields[..i + 1];
    assert Line([fields[i]]) == Tagged(fields[i]) + Line([]);
  }

  lemma {:induction false} StreamConcat(a: seq<Item>, b: seq<Item>)
    ensures Stream(a + b) == Stream(a) + Stream(b)
  {
    if a == [] {
      assert a + b == b;
    } else {
      assert (a + b)[1..] == a[1..] + b;
      StreamConcat(a[1..], b);
    }
  }

  // ----- rings ------------------------------------------------------------------------

  /** The live entries of a ring, oldest first. */
  function Ring<T>(slots: seq<T>, head: nat, count: nat): (live: seq<T>)
    requires |slots| > 0
    ensures |live| == count
  {
    seq(count, i requires 0 <= i < count => slots[(head + i) % |slots|])
  }

  function Eights(live: seq<byte>): (s: seq<Scalar>)
    ensures |s| == |live|
  {
    seq(|live|, i requires 0 <= i < |live| => U8(live[i]))
  }

  function Longs(live: seq<long>): (s: seq<Scalar>)
    ensures |s| == |live|
  {
    seq(|live|, i requires 0 <= i < |live| => U32(live[i]))
  }

  /** Each entry is fed as a longword. */
  function AsLongs(live: seq<byte>): seq<long> { seq(|live|, i requires 0 <= i < |live| => live[i]) }

  function Flags(live: seq<bool>): (s: seq<Scalar>)
    ensures |s| == |live|
  {
    seq(|live|, i requires 0 <= i < |live| => Bool(live[i]))
  }

  function Min(a: nat, b: nat): nat { if a < b then a else b }

  // ----- the accumulator ----------------------------------------------------------------

  const BASIS: bv64 := 14695981039346656037
  const PRIME: bv64 := 1099511628211

  function Absorb(h: bv64, b: byte): bv64 { (h ^ (b as bv64)) * PRIME }

  function Digest(fed: seq<byte>): bv64 {
    if fed == [] then BASIS else Absorb(Digest(fed[..|fed| - 1]), fed[|fed| - 1])
  }

  /** The running hash, with the bytes it has absorbed beside it as a ghost. */
  class Hash {
    var h: bv64
    ghost var fed: seq<byte>

    ghost predicate Valid()
      reads this
    {
      h == Digest(fed)
    }

    constructor ()
      ensures Valid() && fed == []
    {
      h := BASIS;
      fed := [];
    }

    method Bytes(data: seq<byte>)
      requires Valid()
      modifies this
      ensures Valid() && fed == old(fed) + data
    {
      hide Absorb;
      var i := 0;
      while i < |data|
        invariant 0 <= i <= |data|
        invariant Valid() && fed == old(fed) + data[..i]
      {
        h := Absorb(h, data[i]);
        fed := fed + [data[i]];
        assert fed[..|fed| - 1] == old(fed) + data[..i];
        i := i + 1;
      }
      assert data[..i] == data;
    }

    method PutScalar(s: Scalar)
      requires Valid()
      modifies this
      ensures Valid() && fed == old(fed) + Tagged(s)
    {
      Bytes(Tagged(s));
    }

    /** Field after field, in the order given. */
    method Fields(fields: seq<Scalar>)
      requires Valid()
      modifies this
      ensures Valid() && fed == old(fed) + Line(fields)
    {
      hide Tagged, Digest;
      var i := 0;
      while i < |fields|
        invariant 0 <= i <= |fields|
        invariant Valid() && fed == old(fed) + Line(fields[..i])
      {
        PutScalar(fields[i]);
        LineSnoc(fields, i);
        i := i + 1;
      }
      assert fields[..i] == fields;
    }

    /** The live part of a byte ring, slot by slot from its head. */
    method RingBytes(slots: seq<byte>, head: nat, count: nat)
      requires Valid() && |slots| > 0
      modifies this
      ensures Valid() && fed == old(fed) + Line(Eights(Ring(slots, head, count)))
    {
      hide Tagged, Digest;
      ghost var all := Eights(Ring(slots, head, count));
      var i := 0;
      while i < count
        invariant 0 <= i <= count
        invariant Valid() && fed == old(fed) + Line(all[..i])
      {
        PutScalar(U8(slots[(head + i) % |slots|]));
        LineSnoc(all, i);
        i := i + 1;
      }
      assert all[..i] == all;
    }

    /** The same, each entry fed as a longword. */
    method RingLongs(slots: seq<byte>, head: nat, count: nat)
      requires Valid() && |slots| > 0
      modifies this
      ensures Valid() && fed == old(fed) + Line(Longs(AsLongs(Ring(slots, head, count))))
    {
      hide Tagged, Digest;
      ghost var all := Longs(AsLongs(Ring(slots, head, count)));
      var i := 0;
      while i < count
        invariant 0 <= i <= count
        invariant Valid() && fed == old(fed) + Line(all[..i])
      {
        PutScalar(U32(slots[(head + i) % |slots|]));
        LineSnoc(all, i);
        i := i + 1;
      }
      assert all[..i] == all;
    }

    /** The occupied part of a buffer: to its count and never past its end. */
    method Prefix(slots: seq<byte>, count: nat)
      requires Valid()
      modifies this
      ensures Valid() && fed == old(fed) + Line(Eights(slots[..Min(count, |slots|)]))
    {
      hide Tagged, Digest;
      ghost var live := slots[..Min(count, |slots|)];
      var i := 0;
      while i < count && i < |slots|
        invariant 0 <= i <= Min(count, |slots|)
        invariant Valid() && fed == old(fed) + Line(Eights(live[..i]))
      {
        PutScalar(U8(slots[i]));
        LineSnoc(Eights(live), i);
        assert Eights(live)[..i] == Eights(live[..i]) && Eights(live)[..i + 1] == Eights(live[..i + 1]);
        i := i + 1;
      }
      assert live[..i] == live;
    }
  }
}

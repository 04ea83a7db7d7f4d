/**
 * The DN4000's write-through virtual cache: 2048 four-byte entries, direct mapped,
 * served as two byte windows. `CcWord` is the condition-code word: valid in bit 0,
 * the nineteen tag bits above it.
 */
module CacheRam {
  import opened Options
  import opened Words

  const ENTRIES: nat := 2048
  const BYTES: nat := 8192
  const DATA_BASE: nat := 0x012000
  const CC_BASE: nat := 0x014000

  datatype Cache = Cache(present: bool, data: seq<byte>, cc: seq<byte>) {
    predicate Wf() { |data| == |cc| == BYTES }
  }

  function Index(va: long): (i: nat)
    ensures i < ENTRIES
  {
    va / 4 % ENTRIES
  }

  function Tag(va: long): nat { va / 8192 }

  /** The longword an address names is its tag and index together. */
  lemma TagAndIndex(va: long, wa: long)
    ensures va / 4 == Tag(va) * ENTRIES + Index(va)
    ensures Tag(va) == Tag(wa) && Index(va) == Index(wa) <==> va / 4 == wa / 4
  {
  }

  function WordAt(s: seq<byte>, i: nat): long
    requires |s| == BYTES && i < ENTRIES
  {
    LongOf(s[4 * i..4 * i + 4])
  }

  function PutWord(s: seq<byte>, i: nat, v: long): (t: seq<byte>)
    requires |s| == BYTES && i < ENTRIES
    ensures |t| == BYTES
  {
    var b := LongBytes(v);
    s[4 * i := b[0]][4 * i + 1 := b[1]][4 * i + 2 := b[2]][4 * i + 3 := b[3]]
  }

  lemma PutGet(s: seq<byte>, i: nat, v: long, j: nat)
    requires |s| == BYTES && i < ENTRIES && j < ENTRIES
    ensures WordAt(PutWord(s, i, v), j) == if i == j then v else WordAt(s, j)
  {
    var t := PutWord(s, i, v);
    if i == j {
      LongRoundTrip(v);
      assert t[4 * j..4 * j + 4] == LongBytes(v);
    } else {
      assert t[4 * j..4 * j + 4] == s[4 * j..4 * j + 4];
    }
  }

  function CcFor(tag: nat): long
    requires tag < 0x8_0000
  {
    2 * tag + 1
  }

  function Lookup(c: Cache, va: long): Option<long>
    requires c.Wf()
  {
    var i := Index(va);
    var cc := WordAt(c.cc, i);
    if c.present && cc % 2 == 1 && cc / 2 == Tag(va) then Some(WordAt(c.data, i)) else None
  }

  function Fill(c: Cache, va: long, v: long): (d: Cache)
    requires c.Wf()
    ensures d.Wf()
  {
    if !c.present then c
    else c.(data := PutWord(c.data, Index(va), v), cc := PutWord(c.cc, Index(va), CcFor(Tag(va))))
  }

  function Zeros(): (s: seq<byte>)
    ensures |s| == BYTES && forall i :: 0 <= i < BYTES ==> s[i] == 0
  {
    seq(BYTES, i => 0)
  }

  function Invalidate(c: Cache): (d: Cache)
    requires c.Wf()
    ensures d.Wf()
  {
    c.(cc := Zeros())
  }

  /** The byte windows: out of range reads all ones and ignores writes. */
  function ReadWindow(s: seq<byte>, base: nat, address: nat): byte
    requires |s| == BYTES
  {
    if base <= address < base + BYTES then s[address - base] else 0xFF
  }

  function WriteWindow(s: seq<byte>, base: nat, address: nat, v: byte): (t: seq<byte>)
    requires |s| == BYTES
    ensures |t| == BYTES
  {
    if base <= address < base + BYTES then s[address - base := v] else s
  }

  // ----- one operation ------------------------------------------------------------

  /** Filling an address makes it the hit, with the value filled, evicts every other
      tag of its index, and touches no other index. */
  lemma FillThenLookup(c: Cache, va: long, v: long, wa: long)
    requires c.Wf() && c.present
    ensures Lookup(Fill(c, va, v), wa) ==
            if Index(wa) != Index(va) then Lookup(c, wa)
            else if wa / 4 == va / 4 then Some(v) else None
  {
    PutGet(c.data, Index(va), v, Index(wa));
    PutGet(c.cc, Index(va), CcFor(Tag(va)), Index(wa));
    TagAndIndex(va, wa);
  }

  /** An invalidated cache hits nowhere, and an absent one never does. */
  lemma NoHits(c: Cache, va: long)
    requires c.Wf()
    ensures Lookup(Invalidate(c), va) == None
    ensures !c.present ==> Lookup(c, va) == None
  {
  }

  /** A hit is the four bytes a diagnostic reads through the data window, most
      significant first. */
  /** A window is its bytes and nothing outside: a byte written in it is read back there
      and no other changes; outside it a write does nothing and a read is all ones. */
  lemma WindowReadsBack(s: seq<byte>, base: nat, a: nat, v: byte, b: nat)
    requires |s| == BYTES
    ensures var t := WriteWindow(s, base, a, v);
            if base <= a < base + 0x2000
            then ReadWindow(t, base, b) == if b == a then v else ReadWindow(s, base, b)
            else t == s && ReadWindow(s, base, a) == 0xFF
  {
  }

  lemma HitIsWindow(c: Cache, va: long)
    requires c.Wf() && Lookup(c, va).Some?
    ensures var at := DATA_BASE + 4 * Index(va);
            LongBytes(Lookup(c, va).value) ==
            [ReadWindow(c.data, DATA_BASE, at), ReadWindow(c.data, DATA_BASE, at + 1),
             ReadWindow(c.data, DATA_BASE, at + 2), ReadWindow(c.data, DATA_BASE, at + 3)]
  {
    BytesOfLong(c.data[4 * Index(va)..4 * Index(va) + 4]);
  }

  lemma BytesOfLong(s: seq<byte>)
    requires |s| == 4
    ensures LongBytes(LongOf(s)) == s
  {
    var v, a, b, c, d := LongOf(s), s[0] as int, s[1] as int, s[2] as int, s[3] as int;
    assert v / 0x100_0000 == a && v / 0x1_0000 == 0x100 * a + b && v / 0x100 == 0x1_0000 * a + 0x100 * b + c;
  }

  // ----- every run ------------------------------------------------------------------

  /** Main memory by longword number; what was never written holds zero. */
  type Memory = map<nat, long>

  function Mem(m: Memory, w: nat): long { if w in m then m[w] else 0 }

  /** Every valid entry mirrors the longword its tag and index name. */
  ghost predicate Coherent(c: Cache, m: Memory)
    requires c.Wf()
  {
    forall i :: 0 <= i < ENTRIES && WordAt(c.cc, i) % 2 == 1 ==>
      WordAt(c.data, i) == Mem(m, WordAt(c.cc, i) / 2 * ENTRIES + i)
  }

  /** A processor write goes to memory and to the cache; a miss fills from memory;
      the enable bit invalidates everything; and software can drop one entry by
      writing an even byte over the low condition-code byte. */
  datatype Op = Store(va: long, v: long) | Miss(va: long) | Clear | Drop(i: nat, even: byte)

  function Do(c: Cache, m: Memory, op: Op): (r: (Cache, Memory))
    requires c.Wf()
    ensures r.0.Wf() && r.0.present == c.present
  {
    match op
    case Store(va, v) => (Fill(c, va, v), m[va / 4 := v])
    case Miss(va) => (Fill(c, va, Mem(m, va / 4)), m)
    case Clear => (Invalidate(c), m)
    case Drop(i, even) =>
      (if i < ENTRIES && even % 2 == 0 then c.(cc := WriteWindow(c.cc, CC_BASE, CC_BASE + 4 * i + 3, even)) else c, m)
  }

  lemma FillCoherent(c: Cache, m: Memory, va: long, v: long)
    requires c.Wf() && c.present && Coherent(c, m)
    ensures Coherent(Fill(c, va, v), m[va / 4 := v])
  {
    hide WordAt, PutWord;
    var d, n := Fill(c, va, v), m[va / 4 := v];
    forall i | 0 <= i < ENTRIES && WordAt(d.cc, i) % 2 == 1
      ensures WordAt(d.data, i) == Mem(n, WordAt(d.cc, i) / 2 * ENTRIES + i)
    {
      PutGet(c.data, Index(va), v, i);
      PutGet(c.cc, Index(va), CcFor(Tag(va)), i);
      TagAndIndex(va, va);
    }
  }

  lemma RewriteSame(c: Cache, m: Memory, w: nat)
    requires c.Wf() && Coherent(c, m[w := Mem(m, w)])
    ensures Coherent(c, m)
  {
  }

  lemma DropCoherent(c: Cache, m: Memory, i: nat, even: byte)
    requires c.Wf() && Coherent(c, m) && i < ENTRIES && even % 2 == 0
    ensures Coherent(c.(cc := WriteWindow(c.cc, CC_BASE, CC_BASE + 4 * i + 3, even)), m)
  {
  }

  lemma ClearCoherent(c: Cache, m: Memory)
    requires c.Wf()
    ensures Coherent(Invalidate(c), m)
  {
  }

  lemma DoKeepsCoherent(c: Cache, m: Memory, op: Op)
    requires c.Wf() && c.present && Coherent(c, m)
    ensures var r := Do(c, m, op); Coherent(r.0, r.1)
  {
    hide Fill, Coherent, Invalidate, WriteWindow;
    match op
    case Store(va, v) => FillCoherent(c, m, va, v);
    case Miss(va) =>
      FillCoherent(c, m, va, Mem(m, va / 4));
      RewriteSame(Fill(c, va, Mem(m, va / 4)), m, va / 4);
    case Clear => ClearCoherent(c, m);
    case Drop(i, even) =>
      if i < ENTRIES && even % 2 == 0 { DropCoherent(c, m, i, even); }
  }

  function Run(c: Cache, m: Memory, ops: seq<Op>): (r: (Cache, Memory))
    requires c.Wf()
    ensures r.0.Wf() && r.0.present == c.present
  {
    if ops == [] then (c, m)
    else
      var s := Run(c, m, ops[..|ops| - 1]);
      Do(s.0, s.1, ops[|ops| - 1])
  }

  function Empty(): Cache { Cache(true, Zeros(), Zeros()) }

  lemma {:induction false} RunCoherent(m: Memory, ops: seq<Op>)
    ensures var r := Run(Empty(), m, ops); Coherent(r.0, r.1)
  {
    if ops == [] {
      ClearCoherent(Empty(), m);
    } else {
      RunCoherent(m, ops[..|ops| - 1]);
      var s := Run(Empty(), m, ops[..|ops| - 1]);
      DoKeepsCoherent(s.0, s.1, ops[|ops| - 1]);
    }
  }

  /** Never stale: from an empty cache over any memory, after any run of the
      operations, every hit is what memory holds at that longword. */
  lemma HitsAgreeWithMemory(m: Memory, ops: seq<Op>, va: long)
    ensures var r := Run(Empty(), m, ops);
            Lookup(r.0, va).Some? ==> Lookup(r.0, va).value == Mem(r.1, va / 4)
  {
    hide Run, Coherent, Lookup;
    RunCoherent(m, ops);
    var r := Run(Empty(), m, ops);
    if Lookup(r.0, va).Some? { CoherentHit(r.0, r.1, va); }
  }

  lemma CoherentHit(c: Cache, m: Memory, va: long)
    requires c.Wf() && Coherent(c, m) && Lookup(c, va).Some?
    ensures Lookup(c, va).value == Mem(m, va / 4)
  {
    hide WordAt;
    TagAndIndex(va, va);
  }

  // ----- the object ------------------------------------------------------------------

  class CacheRam {
    const data: array<byte>
    const cc: array<byte>
    var entries: nat

    ghost predicate Valid()
      reads this
    {
      data.Length == cc.Length == BYTES && data != cc && (entries == 0 || entries == ENTRIES)
    }

    ghost function View(): Cache
      requires Valid()
      reads this, data, cc
    {
      Cache(entries != 0, data[..], cc[..])
    }

    constructor (present: bool)
      ensures Valid() && fresh(data) && fresh(cc)
      ensures View() == Cache(present, Zeros(), Zeros())
    {
      data := new byte[BYTES](i => 0);
      cc := new byte[BYTES](i => 0);
      entries := if present then ENTRIES else 0;
      new;
      assert data[..] == Zeros() && cc[..] == Zeros();
    }

    method ReadData(address: nat) returns (v: byte)
      requires Valid()
      ensures v == ReadWindow(View().data, DATA_BASE, address)
    {
      if address < DATA_BASE || address >= DATA_BASE + BYTES {
        return 0xFF;
      }
      return data[address - DATA_BASE];
    }

    method WriteData(address: nat, v: byte)
      requires Valid()
      modifies data
      ensures View() == old(View()).(data := WriteWindow(old(View()).data, DATA_BASE, address, v))
    {
      if address < DATA_BASE || address >= DATA_BASE + BYTES {
        return;
      }
      data[address - DATA_BASE] := v;
    }

    method WriteCc(address: nat, v: byte)
      requires Valid()
      modifies cc
      ensures View() == old(View()).(cc := WriteWindow(old(View()).cc, CC_BASE, address, v))
    {
      if address < CC_BASE || address >= CC_BASE + BYTES {
        return;
      }
      cc[address - CC_BASE] := v;
    }

    method CcWord(index: nat) returns (w: long)
      requires Valid()
      ensures w == if index < ENTRIES then WordAt(View().cc, index) else 0
    {
      if index >= ENTRIES {
        return 0;
      }
      w := LongOf([cc[4 * index], cc[4 * index + 1], cc[4 * index + 2], cc[4 * index + 3]]);
      assert [cc[4 * index], cc[4 * index + 1], cc[4 * index + 2], cc[4 * index + 3]] ==
          cc[..][4 * index..4 * index + 4];
    }

    method Look(va: long) returns (r: Option<long>)
      requires Valid()
      ensures r == Lookup(View(), va)
    {
      if entries == 0 {
        return None;
      }
      var index := Index(va);
      var word := CcWord(index);
      if word % 2 == 0 || word / 2 != Tag(va) {
        return None;
      }
      assert [data[4 * index], data[4 * index + 1], data[4 * index + 2], data[4 * index + 3]] ==
          data[..][4 * index..4 * index + 4];
      return Some(LongOf([data[4 * index], data[4 * index + 1], data[4 * index + 2], data[4 * index + 3]]));
    }

    method FillFrom(va: long, v: long)
      requires Valid()
      modifies data, cc
      ensures View() == Fill(old(View()), va, v)
    {
      if entries == 0 {
        return;
      }
      Put(data, Index(va), v);
      Put(cc, Index(va), CcFor(Tag(va)));
    }

    static method Put(a: array<byte>, index: nat, v: long)
      requires a.Length == BYTES && index < ENTRIES
      modifies a
      ensures a[..] == PutWord(old(a[..]), index, v)
    {
      var b := LongBytes(v);
      a[4 * index] := b[0];
      a[4 * index + 1] := b[1];
      a[4 * index + 2] := b[2];
      a[4 * index + 3] := b[3];
    }

    method InvalidateAll()
      requires Valid()
      modifies cc
      ensures View() == Invalidate(old(View()))
    {
      var i := 0;
      while i < BYTES
        invariant 0 <= i <= BYTES
        invariant forall k :: 0 <= k < i ==> cc[k] == 0
      {
        cc[i] := 0;
        i := i + 1;
      }
      assert cc[..] == Zeros();
    }
  }
}

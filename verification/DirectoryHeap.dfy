/**
 * The entries of one directory block: a heap of variable-length entries walked from
 * the offset in the block's header, each entry's own length finding the next.
 */
module DirectoryHeap {
  import opened Options
  import opened Words

  const HEAP_OFFSET: nat := 0x10
  const FIXED: nat := 12

  datatype Entry = Entry(offset: nat, flags: byte, name: seq<byte>, linkText: seq<byte>, uid: (long, long),
                         vtocx: Option<long>) {
    predicate Link() { IsLink(flags) }
    function Size(): nat { SizeOf(flags, |name|, |linkText|) }
  }

  predicate IsLink(flags: byte) { flags % 0x80 == 0x04 }

  function TextAt(flags: byte): nat { if IsLink(flags) then 12 else 16 }

  function Round4(n: nat): nat { (n + 3) / 4 * 4 }

  function SizeOf(flags: byte, name: nat, link: nat): nat { TextAt(flags) + Round4(name + link) }

  function U32(b: seq<byte>, p: nat): long
    requires p + 4 <= |b|
  {
    LongOf(b[p..p + 4])
  }

  predicate Stops(b: seq<byte>, at: nat) {
    || at + FIXED > |b|
    || (b[at + 1] == 0 && U16(b, at + 2) == 0)
    || at + SizeOf(b[at], b[at + 1], U16(b, at + 2)) > |b|
  }

  function EntryAt(b: seq<byte>, at: nat): (e: Entry)
    requires !Stops(b, at)
    ensures e.Size() == SizeOf(b[at], b[at + 1], U16(b, at + 2)) >= 16
    ensures at + e.Size() <= |b|
  {
    var flags, n: nat, m: nat := b[at], b[at + 1], U16(b, at + 2);
    var t := at + TextAt(flags);
    Entry(at, flags, b[t..t + n], b[t + n..t + n + m], (U32(b, at + 4), U32(b, at + 8)),
          if IsLink(flags) then None else Some(U32(b, at + 12)))
  }

  /** The walk from `at`. Every read in it is inside the block, for every block. */
  function Walk(b: seq<byte>, at: nat): seq<Entry>
    decreases if at <= |b| then |b| - at else 0
  {
    if Stops(b, at) then [] else [EntryAt(b, at)] + Walk(b, at + EntryAt(b, at).Size())
  }

  /** A block too short to hold the heap offset cannot be read at all. */
  function Entries(b: seq<byte>): Option<seq<Entry>> {
    if HEAP_OFFSET + 2 > |b| then None else Some(Walk(b, U16(b, HEAP_OFFSET)))
  }

  /** End to end from `at`, none past the end of the block. */
  predicate Contiguous(es: seq<Entry>, at: nat, end: nat) {
    es == [] ||
    (es[0].offset == at && es[0].Size() > 0 && at + es[0].Size() <= end
     && Contiguous(es[1..], at + es[0].Size(), end))
  }

  lemma {:induction false} WalkIsContiguous(b: seq<byte>, at: nat)
    ensures Contiguous(Walk(b, at), at, |b|)
    decreases if at <= |b| then |b| - at else 0
  {
    if !Stops(b, at) {
      var e := EntryAt(b, at);
      WalkIsContiguous(b, at + e.Size());
      assert ([e] + Walk(b, at + e.Size()))[1..] == Walk(b, at + e.Size());
    }
  }

  /** Nor is there room to spare: an entry is its fixed part and its two texts, and fewer
      than four bytes to the next multiple of four. */
  lemma EntryIsTight(b: seq<byte>, at: nat)
    requires !Stops(b, at)
    ensures var e := EntryAt(b, at);
            var used := (if e.vtocx.None? then 12 else 16) + |e.name| + |e.linkText|;
            used <= e.Size() < used + 4 && e.Size() % 4 == 0
  {
  }

  /** Which entries are links: type 4, deleted or not. They alone name no volume entry. */
  lemma LinkEntries(b: seq<byte>, at: nat)
    requires !Stops(b, at)
    ensures EntryAt(b, at).vtocx.None? <==> b[at] in {0x04, 0x84}
    ensures EntryAt(b, at).Link() <==> EntryAt(b, at).vtocx.None?
  {
  }

  /** So no two entries of a block overlap. */
  lemma {:induction false} ContiguousIsDisjoint(es: seq<Entry>, at: nat, end: nat)
    requires Contiguous(es, at, end)
    ensures forall i :: 0 <= i < |es| ==> at <= es[i].offset && es[i].offset + es[i].Size() <= end
    ensures forall i, j :: 0 <= i < j < |es| ==> es[i].offset + es[i].Size() <= es[j].offset
  {
    if es != [] {
      ContiguousIsDisjoint(es[1..], at + es[0].Size(), end);
      assert forall i :: 0 < i < |es| ==> es[i] == es[1..][i - 1];
    }
  }

  // ----- writing ---------------------------------------------------------------------

  /** An entry a block can hold: lengths that fit their fields, some text, and a block
      pointer exactly when it is not a link. */
  predicate Writable(e: Entry) {
    && |e.name| < 0x100 && |e.linkText| < 0x1_0000 && |e.name| + |e.linkText| > 0
    && (e.vtocx.None? <==> e.Link())
  }

  function FixedPart(e: Entry): seq<byte>
    requires Writable(e)
  {
    [e.flags, |e.name|] + Put16(|e.linkText|) + LongBytes(e.uid.0) + LongBytes(e.uid.1)
    + if e.Link() then [] else LongBytes(e.vtocx.value)
  }

  function Padding(n: nat): seq<byte> { seq(Round4(n) - n, i => 0) }

  function EntryBytes(e: Entry): seq<byte>
    requires Writable(e)
  {
    FixedPart(e) + e.name + e.linkText + Padding(|e.name| + |e.linkText|)
  }

  lemma EntrySize(e: Entry)
    requires Writable(e)
    ensures |EntryBytes(e)| == e.Size() && |FixedPart(e)| == TextAt(e.flags)
  {
  }

  function Heap(es: seq<Entry>): seq<byte>
    requires forall e :: e in es ==> Writable(e)
  {
    if es == [] then [] else EntryBytes(es[0]) + Heap(es[1..])
  }

  /** The entries with the offsets a walk from `at` gives them. */
  function Placed(es: seq<Entry>, at: nat): seq<Entry> {
    if es == [] then [] else [es[0].(offset := at)] + Placed(es[1..], at + es[0].Size())
  }

  /** Every field of an entry's fixed part, where the walk looks for it. */
  lemma FixedFields(e: Entry)
    requires Writable(e)
    ensures var t := FixedPart(e);
            && |t| == TextAt(e.flags) && t[0] == e.flags && t[1] == |e.name| && U16(t, 2) == |e.linkText|
            && U32(t, 4) == e.uid.0 && U32(t, 8) == e.uid.1
            && (!e.Link() ==> U32(t, 12) == e.vtocx.value)
  {
    var t, a, b := FixedPart(e), LongBytes(e.uid.0), LongBytes(e.uid.1);
    LongRoundTrip(e.uid.0);
    LongRoundTrip(e.uid.1);
    assert t[4..8] == a && t[8..12] == b;
    assert t[2] == High(|e.linkText|) && t[3] == Low(|e.linkText|);
    if !e.Link() {
      LongRoundTrip(e.vtocx.value);
      assert t[12..16] == LongBytes(e.vtocx.value);
    }
  }

  /** The same fields, in a block where the bytes lie. */
  lemma FieldsLie(b: seq<byte>, at: nat, t: seq<byte>)
    requires Lies(b, at, t)
    ensures forall k :: 0 <= k < |t| ==> b[at + k] == t[k]
    ensures forall k :: 0 <= k && k + 2 <= |t| ==> U16(b, at + k) == U16(t, k)
    ensures forall k :: 0 <= k && k + 4 <= |t| ==> U32(b, at + k) == U32(t, k)
  {
  }

  /** An entry written at an offset is the entry the walk finds there. */
  lemma EntryReads(b: seq<byte>, at: nat, e: Entry)
    requires Writable(e) && Lies(b, at, EntryBytes(e))
    ensures !Stops(b, at) && EntryAt(b, at) == e.(offset := at)
  {
    hide FixedPart, EntryBytes, U16, U32, SizeOf;
    EntrySize(e);
    HeadLies(b, at, e);
    PartsLie(b, at, e);
  }

  /** The fixed part of a written entry. */
  lemma HeadLies(b: seq<byte>, at: nat, e: Entry)
    requires Writable(e) && Lies(b, at, EntryBytes(e))
    ensures at + TextAt(e.flags) <= |b|
    ensures b[at] == e.flags && b[at + 1] == |e.name| && U16(b, at + 2) == |e.linkText|
    ensures U32(b, at + 4) == e.uid.0 && U32(b, at + 8) == e.uid.1 && (!e.Link() ==> U32(b, at + 12) == e.vtocx.value)
  {
    hide FixedPart, EntryBytes, U16, U32, Writable;
    FixedFields(e);
    PartsLie(b, at, e);
    FieldsLie(b, at, FixedPart(e));
    assert b[at + 0] == FixedPart(e)[0];
  }

  lemma PartsLie(b: seq<byte>, at: nat, e: Entry)
    requires Writable(e) && Lies(b, at, EntryBytes(e))
    ensures var f, n := |FixedPart(e)|, |e.name|;
            Lies(b, at, FixedPart(e)) && Lies(b, at + f, e.name) && Lies(b, at + f + n, e.linkText)
  {
    hide FixedPart, Padding, Writable;
    var front := FixedPart(e);
    LiesTogether(b, at, front + e.name + e.linkText, Padding(|e.name| + |e.linkText|));
    LiesTogether(b, at, front + e.name, e.linkText);
    LiesTogether(b, at, front, e.name);
  }

  lemma WalkStep(b: seq<byte>, at: nat, e: Entry)
    requires Writable(e) && Lies(b, at, EntryBytes(e))
    ensures Walk(b, at) == [e.(offset := at)] + Walk(b, at + e.Size())
  {
    hide EntryBytes, EntryAt, Stops, Lies, Writable, SizeOf, U16, U32;
    EntryReads(b, at, e);
    assert EntryAt(b, at).Size() == e.Size();
  }

  lemma NothingToWalk(b: seq<byte>, at: nat)
    requires at == |b|
    ensures Walk(b, at) == []
  {
    assert Stops(b, at);
  }

  /** A heap that ends the block is walked back entry for entry. */
  lemma {:induction false} WalkOfHeap(b: seq<byte>, at: nat, es: seq<Entry>)
    requires forall e :: e in es ==> Writable(e)
    requires Lies(b, at, Heap(es)) && at + |Heap(es)| == |b|
    ensures Walk(b, at) == Placed(es, at)
    decreases |es|
  {
    hide EntryAt, EntryBytes, Lies, Writable, U16, SizeOf, Round4, Walk, Stops;
    if es == [] {
      NothingToWalk(b, at);
    } else {
      EntrySize(es[0]);
      assert es[0] in es && forall e :: e in es[1..] ==> e in es;
      LiesTogether(b, at, EntryBytes(es[0]), Heap(es[1..]));
      WalkStep(b, at, es[0]);
      WalkOfHeap(b, at + es[0].Size(), es[1..]);
    }
  }

  /** A block whose header gives the heap's offset and whose heap ends the block. */
  function WriteBlock(head: seq<byte>, gap: seq<byte>, es: seq<Entry>): seq<byte>
    requires |head| == HEAP_OFFSET && HEAP_OFFSET + 2 + |gap| < 0x1_0000
    requires forall e :: e in es ==> Writable(e)
  {
    head + Put16(HEAP_OFFSET + 2 + |gap|) + gap + Heap(es)
  }

  /** Directory round trip: names, link texts, link and deleted flags, UIDs and block
      pointers all come back, in order. */
  lemma DirectoryRoundTrip(head: seq<byte>, gap: seq<byte>, es: seq<Entry>)
    requires |head| == HEAP_OFFSET && HEAP_OFFSET + 2 + |gap| < 0x1_0000
    requires forall e :: e in es ==> Writable(e)
    ensures Entries(WriteBlock(head, gap, es)) == Some(Placed(es, HEAP_OFFSET + 2 + |gap|))
  {
    var at: nat := HEAP_OFFSET + 2 + |gap|;
    var front := head + Put16(at) + gap;
    var b := WriteBlock(head, gap, es);
    hide High, Low, Join, Heap, Placed, Walk, Writable;
    Halves(at);
    assert b == front + Heap(es) && b[at..] == Heap(es);
    assert b[HEAP_OFFSET] == High(at) && b[HEAP_OFFSET + 1] == Low(at);
    WalkOfHeap(b, at, es);
  }

  lemma {:induction false} PlacedKeeps(es: seq<Entry>, at: nat)
    ensures |Placed(es, at)| == |es|
    ensures forall i :: 0 <= i < |es| ==> Placed(es, at)[i] == es[i].(offset := Placed(es, at)[i].offset)
  {
    if es != [] {
      PlacedKeeps(es[1..], at + es[0].Size());
    }
  }

  lemma WalkOn(b: seq<byte>, at: nat, es: seq<Entry>)
    requires !Stops(b, at)
    ensures var e := EntryAt(b, at); es + Walk(b, at) == (es + [e]) + Walk(b, at + e.Size())
  {
    hide Stops, EntryAt, SizeOf;
    Regroup(es, EntryAt(b, at), Walk(b, at + EntryAt(b, at).Size()));
  }

  lemma Regroup(s: seq<Entry>, e: Entry, t: seq<Entry>)
    ensures s + ([e] + t) == s + [e] + t
  {
  }

  /** The cursor loop. */
  method DirEntries(b: seq<byte>) returns (out: Option<seq<Entry>>)
    ensures out == Entries(b)
  {
    hide EntryAt, SizeOf, U16;
    if HEAP_OFFSET + 2 > |b| {
      return None;
    }
    var at: nat, es := U16(b, HEAP_OFFSET), [];
    while at + FIXED <= |b|
      invariant Walk(b, U16(b, HEAP_OFFSET)) == es + Walk(b, at)
      decreases if at <= |b| then |b| - at else 0
    {
      if b[at + 1] == 0 && U16(b, at + 2) == 0 {
        break;
      }
      if at + SizeOf(b[at], b[at + 1], U16(b, at + 2)) > |b| {
        break;
      }
      var e := EntryAt(b, at);
      WalkOn(b, at, es);
      es := es + [e];
      at := at + e.Size();
    }
    assert Stops(b, at) && es + [] == es;
    return Some(es);
  }
}

/**
 * The display controller's feed: two frame buffers of whatever size is attached, the
 * programmed registers, the palette bytes waiting in a ring, both palettes and the
 * blitter's carried state.
 */
module DisplayFeed {
  import opened Arithmetic
  import opened Words
  import opened StateFeed
  import opened DeviceFeeds

  const LUT_FIFO: nat := 1024
  const PALETTE: nat := 3 * 256
  const GUNS: nat := 3 * 16
  const CARRIED: nat := 8 + 4

  /** `palette` is the 8-plane board's, entry by entry; `guns` the 4-plane board's;
      `carried` the eight guard latches and the four counters. */
  datatype Display = Display(screen: byte, colour: seq<byte>, mono: seq<byte>, control: seq<byte>, writeEnable: word,
                             rop: long, lutControl: byte, lutData: byte, fifo: seq<byte>, head: nat, count: long,
                             palette: seq<byte>, guns: seq<byte>, channel: byte, refresh: byte, carried: seq<long>)
  {
    predicate Extents() { |colour| < 0x1_0000_0000 && |mono| < 0x1_0000_0000 && |palette| == PALETTE }

    predicate Wf() {
      Extents() && |control| == 6 && |fifo| == LUT_FIFO && |guns| == GUNS && |carried| == CARRIED
    }
  }

  /** The display with its ring straightened and cut to what waits in it. */
  function DisplayLive(d: Display): (l: Display)
    requires d.Wf()
    ensures l.Extents() && |l.fifo| == d.count && l == d.(fifo := l.fifo, head := 0)
  {
    d.(fifo := Ring(d.fifo, d.head, d.count), head := 0)
  }

  function DisplayItems(l: Display): (s: seq<Item>)
    requires l.Extents()
    ensures |s| == 9
  {
    [Scalars([U8(l.screen), U32(|l.colour|)]),
     Raw(l.colour),
     Scalars([U32(|l.mono|)]),
     Raw(l.mono),
     Scalars(Eights(l.control)),
     Scalars([U16(l.writeEnable), U32(l.rop), U8(l.lutControl), U8(l.lutData), U32(l.count)]),
     Scalars(Eights(l.fifo)),
     Raw(l.palette + l.guns),
     Scalars([U8(l.channel), U8(l.refresh)] + Longs(l.carried))]
  }

  function DisplayFrom(s: seq<Item>): Display
    requires |s| == 9 && |Bytes(s[7])| >= PALETTE && |LongsOf(s[8])| >= 2
  {
    Display(B8(s[0], 0), Bytes(s[1]), Bytes(s[3]), Bytes(s[4]), B16(s[5], 0), B32(s[5], 1), B8(s[5], 2), B8(s[5], 3),
            Bytes(s[6]), 0, B32(s[5], 4), Bytes(s[7])[..PALETTE], Bytes(s[7])[PALETTE..], B8(s[8], 0), B8(s[8], 1),
            LongsOf(s[8])[2..])
  }

  lemma DisplayBack(l: Display)
    requires l.Extents() && l.head == 0
    ensures var s := DisplayItems(l);
            |Bytes(s[7])| >= PALETTE && |LongsOf(s[8])| >= 2 && DisplayFrom(s) == l
  {
    ReadBack(l.control, [], []);
    ReadBack(l.fifo, [], []);
    CarriedBack(l.channel, l.refresh, l.carried);
  }

  lemma CarriedBack(channel: byte, refresh: byte, carried: seq<long>)
    ensures var i := Scalars([U8(channel), U8(refresh)] + Longs(carried));
            B8(i, 0) == channel && B8(i, 1) == refresh && |LongsOf(i)| >= 2 && LongsOf(i)[2..] == carried
  {
    ReadBack([], [], carried);
    var i := Scalars([U8(channel), U8(refresh)] + Longs(carried));
    assert forall k :: 0 <= k < |carried| ==> LongsOf(i)[2 + k] == LongsOf(Scalars(Longs(carried)))[k];
  }

  /** The extents come before the bytes, so memories of two sizes never feed alike, and
      neither the ring's rotation nor its stale slots matter. */
  lemma DisplayExact(d: Display, x: seq<byte>, e: Display, y: seq<byte>)
    requires d.Wf() && e.Wf()
    ensures Stream(DisplayItems(DisplayLive(d))) + x == Stream(DisplayItems(DisplayLive(e))) + y <==>
            DisplayLive(d) == DisplayLive(e) && x == y
  {
    hide Stream, Eights, Longs, Ring;
    var a, b := DisplayItems(DisplayLive(d)), DisplayItems(DisplayLive(e));
    if Stream(a) + x == Stream(b) + y {
      forall i | 0 <= i < 9 && a[..i] == b[..i]
        ensures SameKind(a[i], b[i])
      {
        if i > 0 { Agreed(a, b, i, 0); assert B32(a[0], 1) == |d.colour| && B32(b[0], 1) == |e.colour|; }
        if i > 2 { Agreed(a, b, i, 2); assert B32(a[2], 0) == |d.mono| && B32(b[2], 0) == |e.mono|; }
        if i > 5 { Agreed(a, b, i, 5); assert B32(a[5], 4) == d.count && B32(b[5], 4) == e.count; }
      }
      StreamInjective(a, x, b, y);
      DisplayBack(DisplayLive(d));
      DisplayBack(DisplayLive(e));
    }
  }

  // ----- the feeder --------------------------------------------------------------------

  method FeedDisplay(st: Hash, d: Display)
    requires st.Valid() && d.Wf()
    modifies st
    ensures st.Valid() && st.fed == old(st.fed) + Stream(DisplayItems(DisplayLive(d)))
  {
    hide Stream, Digest, Encode, DisplayItems, DisplayLive;
    ThreeParts(DisplayItems(DisplayLive(d)), 3, 6);
    FeedColour(st, d);
    FeedRegisters(st, d);
    FeedPalettes(st, d);
  }

  method FeedColour(st: Hash, d: Display)
    requires st.Valid() && d.Wf()
    modifies st
    ensures st.Valid() && st.fed == old(st.fed) + Stream(DisplayItems(DisplayLive(d))[..3])
  {
    hide Line, Digest, Stream, Eights, Longs, Ring;
    Stream3(DisplayItems(DisplayLive(d))[..3]);
    st.Fields([U8(d.screen), U32(|d.colour|)]);
    st.Bytes(d.colour);
    st.Fields([U32(|d.mono|)]);
  }

  method FeedRegisters(st: Hash, d: Display)
    requires st.Valid() && d.Wf()
    modifies st
    ensures st.Valid() && st.fed == old(st.fed) + Stream(DisplayItems(DisplayLive(d))[3..6])
  {
    hide Line, Digest, Stream, Eights, Longs, Ring;
    Stream3(DisplayItems(DisplayLive(d))[3..6]);
    st.Bytes(d.mono);
    st.Fields(Eights(d.control));
    st.Fields([U16(d.writeEnable), U32(d.rop), U8(d.lutControl), U8(d.lutData), U32(d.count)]);
  }

  method FeedPalettes(st: Hash, d: Display)
    requires st.Valid() && d.Wf()
    modifies st
    ensures st.Valid() && st.fed == old(st.fed) + Stream(DisplayItems(DisplayLive(d))[6..])
  {
    hide Line, Digest, Stream, Eights, Longs, Ring, DisplayItems, DisplayLive;
    PalettesStream(d);
    st.RingBytes(d.fifo, d.head, d.count);
    FeedRows(st, d.palette, 3);
    FeedRows(st, d.guns, 16);
    st.Fields([U8(d.channel), U8(d.refresh)]);
    st.Fields(Longs(d.carried));
  }

  lemma PalettesStream(d: Display)
    requires d.Wf()
    ensures Stream(DisplayItems(DisplayLive(d))[6..]) ==
            Line(Eights(Ring(d.fifo, d.head, d.count))) + (d.palette + d.guns)
            + (Line([U8(d.channel), U8(d.refresh)]) + Line(Longs(d.carried)))
  {
    Stream3(DisplayItems(DisplayLive(d))[6..]);
    LineConcat([U8(d.channel), U8(d.refresh)], Longs(d.carried));
    hide Line, Stream, Eights, Longs, Ring;
  }

  /** A table row by row: one entry's three colours, or one gun's sixteen levels. */
  method FeedRows(st: Hash, table: seq<byte>, width: nat)
    requires st.Valid() && width > 0 && |table| % width == 0
    modifies st
    ensures st.Valid() && st.fed == old(st.fed) + table
  {
    hide Digest;
    var at := 0;
    while at < |table|
      invariant 0 <= at <= |table| && (|table| - at) % width == 0
      invariant st.Valid() && st.fed == old(st.fed) + table[..at]
      decreases |table| - at
    {
      RowFits(|table| - at, width);
      st.Bytes(table[at..at + width]);
      assert table[..at] + table[at..at + width] == table[..at + width];
      at := at + width;
    }
    assert table[..at] == table;
  }

  lemma RowFits(left: nat, width: nat)
    requires width > 0 && left > 0 && left % width == 0
    ensures left >= width && (left - width) % width == 0
  {
    assert left == width * (left / width);
    var q := left / width;
    assert q > 0;
    assert left - width == width * (q - 1);
    Division(left - width, width, q - 1, 0);
  }
}

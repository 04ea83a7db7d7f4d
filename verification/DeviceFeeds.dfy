/**
 * The feeders with queues, rings and part-filled buffers in them. Each device has
 * its storage as the emulator keeps it; its live state, which is what a feed should
 * say; and the items the feeder absorbs. The theorem about each is that two feeds
 * are the same bytes exactly when the two live states are equal, so stale slots and
 * a ring's rotation never matter and no live difference is lost.
 */
module DeviceFeeds {
  import opened Arithmetic
  import opened Words
  import opened StateFeed

  // Reading an item back, by position.
  function B8(i: Item, k: nat): byte {
    if i.Scalars? && k < |i.fields| && i.fields[k].U8? then i.fields[k].v8 else 0
  }
  function B16(i: Item, k: nat): word {
    if i.Scalars? && k < |i.fields| && i.fields[k].U16? then i.fields[k].v16 else 0
  }
  function B32(i: Item, k: nat): long {
    if i.Scalars? && k < |i.fields| && i.fields[k].U32? then i.fields[k].v32 else 0
  }
  function B64(i: Item, k: nat): quad {
    if i.Scalars? && k < |i.fields| && i.fields[k].U64? then i.fields[k].v64 else 0
  }
  function BTime(i: Item, k: nat): quad {
    if i.Scalars? && k < |i.fields| && i.fields[k].Time? then i.fields[k].at else 0
  }
  predicate Flag(i: Item, k: nat) { B8(i, k) == 1 }

  function Bytes(i: Item): seq<byte> {
    if i.Raw? then i.bytes else seq(|i.fields|, k requires 0 <= k < |i.fields| => B8(i, k))
  }
  function FlagsOf(i: Item): seq<bool> {
    if i.Raw? then [] else seq(|i.fields|, k requires 0 <= k < |i.fields| => Flag(i, k))
  }
  function LongsOf(i: Item): seq<long> {
    if i.Raw? then [] else seq(|i.fields|, k requires 0 <= k < |i.fields| => B32(i, k))
  }

  lemma ReadBack(live: seq<byte>, bits: seq<bool>, longs: seq<long>)
    ensures Bytes(Scalars(Eights(live))) == live
    ensures FlagsOf(Scalars(Flags(bits))) == bits
    ensures LongsOf(Scalars(Longs(longs))) == longs
  {
  }

  // ----- the serial channel ----------------------------------------------------------

  const RX_FIFO: nat := 3

  datatype Serial = Serial(mr0: byte, mr1: byte, mrPointer: bool, csr: byte, sr: byte,
                           fifo: seq<byte>, fifoStatus: seq<byte>, fifoCount: long,
                           rxShift: byte, rxShiftFull: bool,
                           rxEnabled: bool, txEnabled: bool, txHolding: byte, txHoldingFull: bool)
  {
    predicate Wf() { |fifo| == |fifoStatus| == RX_FIFO }
  }

  datatype LiveSerial = LiveSerial(mr0: byte, mr1: byte, mrPointer: bool, csr: byte, sr: byte, count: long,
                                   fifo: seq<byte>, rxEnabled: bool, txEnabled: bool, txHolding: byte,
                                   txHoldingFull: bool)

  function SerialLive(c: Serial): LiveSerial
    requires c.Wf()
  {
    LiveSerial(c.mr0, c.mr1, c.mrPointer, c.csr, c.sr, c.fifoCount, c.fifo[..Min(c.fifoCount, RX_FIFO)],
               c.rxEnabled, c.txEnabled, c.txHolding, c.txHoldingFull)
  }

  function SerialItems(l: LiveSerial): seq<Item> {
    [Scalars([U8(l.mr0), U8(l.mr1), Bool(l.mrPointer), U8(l.csr), U8(l.sr), U32(l.count)]),
     Scalars(Eights(l.fifo)),
     Scalars([Bool(l.rxEnabled), Bool(l.txEnabled), U8(l.txHolding), Bool(l.txHoldingFull)])]
  }

  function SerialFrom(s: seq<Item>): LiveSerial
    requires |s| == 3
  {
    LiveSerial(B8(s[0], 0), B8(s[0], 1), Flag(s[0], 2), B8(s[0], 3), B8(s[0], 4), B32(s[0], 5),
               Bytes(s[1]), Flag(s[2], 0), Flag(s[2], 1), B8(s[2], 2), Flag(s[2], 3))
  }

  lemma SerialBack(l: LiveSerial)
    ensures SerialFrom(SerialItems(l)) == l
  {
  }

  lemma SerialExact(c: Serial, x: seq<byte>, d: Serial, y: seq<byte>)
    requires c.Wf() && d.Wf()
    ensures Stream(SerialItems(SerialLive(c))) + x == Stream(SerialItems(SerialLive(d))) + y <==>
            SerialLive(c) == SerialLive(d) && x == y
  {
    var a, b := SerialItems(SerialLive(c)), SerialItems(SerialLive(d));
    if Stream(a) + x == Stream(b) + y {
      assert a[..1] == b[..1] ==> a[0] == b[0] by { assert a[..1][0] == a[0] && b[..1][0] == b[0]; }
      assert a[0] == b[0] ==> B32(a[0], 5) == B32(b[0], 5);
      StreamInjective(a, x, b, y);
      SerialBack(SerialLive(c));
      SerialBack(SerialLive(d));
    }
  }

  /** The bytes of a channel, stretch by stretch. */
  lemma SerialStream(c: Serial)
    requires c.Wf()
    ensures Stream(SerialItems(SerialLive(c))) ==
            Line([U8(c.mr0), U8(c.mr1), Bool(c.mrPointer), U8(c.csr), U8(c.sr), U32(c.fifoCount)])
            + Line(Eights(c.fifo[..Min(c.fifoCount, |c.fifo|)]))
            + Line([Bool(c.rxEnabled), Bool(c.txEnabled), U8(c.txHolding), Bool(c.txHoldingFull)])
  {
    Stream3(SerialItems(SerialLive(c)));
    hide Stream, Line, Eights;
  }

  method FeedSerial(st: Hash, c: Serial)
    requires st.Valid() && c.Wf()
    modifies st
    ensures st.Valid() && st.fed == old(st.fed) + Stream(SerialItems(SerialLive(c)))
  {
    hide Line, Eights, Digest, Stream, SerialItems, SerialLive, Bool;
    SerialStream(c);
    st.Fields([U8(c.mr0), U8(c.mr1), Bool(c.mrPointer), U8(c.csr), U8(c.sr), U32(c.fifoCount)]);
    st.Prefix(c.fifo, c.fifoCount);
    st.Fields([Bool(c.rxEnabled), Bool(c.txEnabled), U8(c.txHolding), Bool(c.txHoldingFull)]);
  }

  lemma Stream3(s: seq<Item>)
    requires |s| == 3
    ensures Stream(s) == Encode(s[0]) + Encode(s[1]) + Encode(s[2])
  {
    hide Encode;
    assert s[1..][0] == s[1] && s[1..][1..] == s[2..] && s[2..][0] == s[2] && s[2..][1..] == [];
    assert Stream(s[2..]) == Encode(s[2]) + Stream([]);
  }

  /** A feed grows an item at a time. */
  lemma StreamTake(items: seq<Item>, k: nat)
    requires k < |items|
    ensures Stream(items[..k + 1]) == Stream(items[..k]) + Encode(items[k])
  {
    hide Encode;
    StreamConcat(items[..k], [items[k]]);
    assert items[..k] + [items[k]] == items[..k + 1];
    assert Stream([items[k]]) == Encode(items[k]) + Stream([]);
  }

  lemma ThreeParts(items: seq<Item>, i: nat, j: nat)
    requires i <= j <= |items|
    ensures Stream(items) == Stream(items[..i]) + Stream(items[i..j]) + Stream(items[j..])
  {
    hide Stream;
    StreamSplit(items, j);
    StreamSplit(items[..j], i);
    assert items[..j][..i] == items[..i] && items[..j][i..] == items[i..j];
  }

  lemma StreamSplit(items: seq<Item>, i: nat)
    requires i <= |items|
    ensures Stream(items) == Stream(items[..i]) + Stream(items[i..])
  {
    hide Stream;
    StreamConcat(items[..i], items[i..]);
    assert items[..i] + items[i..] == items;
  }

  // The channel holds more than it feeds: a character waiting in the shift register
  // for a free position, and each queued character's own error flags.

  predicate CharacterMode(c: Serial) { c.mr0 / 32 % 2 == 0 }

  /** The first `count` positions move up by one; what lies past them is not touched. */
  function MovedUp(s: seq<byte>, count: nat): (t: seq<byte>)
    requires count <= |s|
    ensures |t| == |s|
  {
    seq(|s|, i requires 0 <= i < |s| => if i + 1 < count then s[i + 1] else s[i])
  }

  /** Reading the data register: the FIFO moves up, a waiting character takes the
      freed position, and the status register follows. */
  function ReadData(c: Serial): Serial
    requires c.Wf() && c.fifoCount <= RX_FIFO
  {
    if c.fifoCount == 0 then c
    else
      var f, g := MovedUp(c.fifo, c.fifoCount), MovedUp(c.fifoStatus, c.fifoCount);
      var n := c.fifoCount - 1;
      var fifo := if c.rxShiftFull then f[n := c.rxShift] else f;
      var flags := if c.rxShiftFull then g[n := 0] else g;
      var count := if c.rxShiftFull then n + 1 else n;
      c.(fifo := fifo, fifoStatus := flags, fifoCount := count, rxShiftFull := false,
         sr := NextStatus(c, count, flags[0]))
  }

  function NextStatus(c: Serial, count: nat, topFlags: byte): byte {
    (if CharacterMode(c) then if count > 0 then topFlags / 32 * 32 else 0 else c.sr / 32 * 32)
    + c.sr % 32 / 4 * 4 + (if count >= RX_FIFO then 2 else 0) + (if count == 0 then 0 else c.sr % 2)
  }

  /** A status byte by its fields: the three error bits, the three kept, full and ready. */
  lemma StatusFields(errors: nat, kept: nat, full: nat, ready: nat, i: nat)
    requires errors < 8 && kept < 8 && full < 2 && ready < 2 && i < 8
    ensures BitSet(32 * errors + 4 * kept + 2 * full + ready, i) <==>
            if i >= 5 then BitSet(errors, i - 5) else if i >= 2 then BitSet(kept, i - 2)
            else if i == 1 then full == 1 else ready == 1
  {
    hide BitSet;
    FieldPowers();
    hide Pow2;
    var low, bits := 4 * kept + 2 * full + ready, 2 * full + ready;
    if i >= 5 {
      UpperBit(errors, low, 5, i);
    } else {
      LowerBit(errors, low, 5, i);
      if i >= 2 {
        UpperBit(kept, bits, 2, i);
      } else {
        LowerBit(kept, bits, 2, i);
        LowTwo(full, ready, i);
      }
    }
  }

  lemma FieldPowers()
    ensures Pow2(0) == 1 && Pow2(1) == 2 && Pow2(2) == 4 && Pow2(5) == 32
  {
  }

  lemma LowTwo(full: nat, ready: nat, i: nat)
    requires full < 2 && ready < 2 && i < 2
    ensures BitSet(2 * full + ready, i) <==> if i == 1 then full == 1 else ready == 1
  {
    FieldPowers();
  }

  lemma StatusParts(v: byte)
    ensures v as nat == 32 * (v / 32) + 4 * (v % 32 / 4) + 2 * (v / 2 % 2) + v % 2
    ensures v / 32 < 8 && v % 32 / 4 < 8 && v / 2 % 2 < 2
  {
  }

  /** What a read of the data register leaves: the characters behind the one taken, then
      the one that was waiting, with no errors against it; ready while any is left, full at
      three; and in character mode the errors of the character now in front, in block mode
      the errors that stood. */
  lemma ReadLeaves(c: Serial, i: nat)
    requires c.Wf() && 0 < c.fifoCount <= RX_FIFO && i < 8
    ensures var d := ReadData(c);
            && d.Wf() && d.fifoCount <= RX_FIFO && !d.rxShiftFull
            && d.fifo[..d.fifoCount] == c.fifo[1..c.fifoCount] + (if c.rxShiftFull then [c.rxShift] else [])
            && d.fifoStatus[..d.fifoCount] == c.fifoStatus[1..c.fifoCount] + (if c.rxShiftFull then [0] else [])
            && (BitSet(d.sr, i) <==>
                if i == 0 then d.fifoCount > 0 && BitSet(c.sr, 0)
                else if i == 1 then d.fifoCount == 3
                else if i < 5 || BitSet(c.mr0, 5) then BitSet(c.sr, i)
                else d.fifoCount > 0 && BitSet(d.fifoStatus[0], i))
  {
    var d := ReadData(c);
    assert d.fifo[..d.fifoCount] == c.fifo[1..c.fifoCount] + (if c.rxShiftFull then [c.rxShift] else []);
    assert d.fifoStatus[..d.fifoCount] == c.fifoStatus[1..c.fifoCount] + (if c.rxShiftFull then [0] else []);
    ReadStatus(c, d.fifoCount, d.fifoStatus[0], i);
  }

  lemma ReadStatus(c: Serial, count: nat, flags: byte, i: nat)
    requires count <= RX_FIFO && i < 8
    ensures BitSet(NextStatus(c, count, flags), i) <==>
            if i == 0 then count > 0 && BitSet(c.sr, 0)
            else if i == 1 then count == 3
            else if i < 5 || BitSet(c.mr0, 5) then BitSet(c.sr, i)
            else count > 0 && BitSet(flags, i)
  {
    hide BitSet;
    var errors := if CharacterMode(c) then if count > 0 then flags / 32 else 0 else c.sr / 32;
    StatusParts(c.sr);
    StatusParts(flags);
    var full, ready := if count >= RX_FIFO then 1 else 0, if count == 0 then 0 else c.sr % 2;
    assert NextStatus(c, count, flags) == 32 * errors + 4 * (c.sr % 32 / 4) + 2 * full + ready;
    hide NextStatus;
    StatusFields(errors, c.sr % 32 / 4, full, ready, i);
    StatusFields(c.sr / 32, c.sr % 32 / 4, c.sr / 2 % 2, c.sr % 2, i);
    StatusFields(flags / 32, flags % 32 / 4, flags / 2 % 2, flags % 2, i);
    NoBits(i);
    ErrorMode(c);
    hide CharacterMode;
  }

  lemma ErrorMode(c: Serial)
    ensures CharacterMode(c) <==> !BitSet(c.mr0, 5)
  {
    FieldPowers();
  }

  lemma NoBits(i: nat)
    ensures i >= 5 ==> !BitSet(0, i - 5)
  {
    if i >= 5 { Division(0, Pow2(i - 5), 0, 0); }
  }

  /** Two channels that feed alike still feed alike after a read exactly when what
      was waiting behind the FIFO was alike: a fact the feed does not carry. */
  lemma ReadKeepsFeedIff(c: Serial, d: Serial)
    requires c.Wf() && d.Wf() && SerialLive(c) == SerialLive(d) && 0 < c.fifoCount <= RX_FIFO
    ensures Stream(SerialItems(SerialLive(ReadData(c)))) == Stream(SerialItems(SerialLive(ReadData(d)))) <==>
            && c.rxShiftFull == d.rxShiftFull
            && (c.rxShiftFull ==> c.rxShift == d.rxShift)
            && (CharacterMode(c) && c.fifoCount > 1 ==> c.fifoStatus[1] / 32 == d.fifoStatus[1] / 32)
  {
    SerialExact(ReadData(c), [], ReadData(d), []);
    hide Stream, SerialItems, ReadData, SerialLive;
    ReadLive(c, d);
  }

  /** The status register a read leaves differs only in the flags it takes up. */
  lemma StatusFollows(c: Serial, d: Serial)
    requires c.mr0 == d.mr0 && c.sr == d.sr
    ensures forall count: nat, x: byte, y: byte ::
              NextStatus(c, count, x) == NextStatus(d, count, y) <==>
                  (CharacterMode(c) && count > 0 ==> x / 32 == y / 32)
  {
  }

  /** What a read leaves in the queue, and of the rest only the status register. */
  lemma ReadQueue(c: Serial)
    requires c.Wf() && 0 < c.fifoCount <= RX_FIFO
    ensures var e, n := ReadData(c), c.fifoCount as nat;
            && e == c.(fifo := e.fifo, fifoStatus := e.fifoStatus, fifoCount := e.fifoCount, rxShiftFull := false,
                sr := e.sr)
            && e.Wf() && e.fifoCount as nat == n - 1 + (if c.rxShiftFull then 1 else 0)
            && e.fifo[..e.fifoCount] == c.fifo[1..n] + (if c.rxShiftFull then [c.rxShift] else [])
            && e.sr == NextStatus(c, e.fifoCount, e.fifoStatus[0])
            && e.fifoStatus[0] == if n > 1 then c.fifoStatus[1] else if c.rxShiftFull then 0 else c.fifoStatus[0]
  {
    hide NextStatus;
  }

  lemma ReadLive(c: Serial, d: Serial)
    requires c.Wf() && d.Wf() && SerialLive(c) == SerialLive(d) && 0 < c.fifoCount <= RX_FIFO
    ensures SerialLive(ReadData(c)) == SerialLive(ReadData(d)) <==>
            && c.rxShiftFull == d.rxShiftFull
            && (c.rxShiftFull ==> c.rxShift == d.rxShift)
            && (CharacterMode(c) && c.fifoCount > 1 ==> c.fifoStatus[1] / 32 == d.fifoStatus[1] / 32)
  {
    hide NextStatus, ReadData;
    ReadQueue(c);
    ReadQueue(d);
    StatusFollows(c, d);
    hide CharacterMode;
    var n := c.fifoCount as nat;
    assert c.fifo[1..n] == c.fifo[..n][1..] && d.fifo[1..n] == d.fifo[..n][1..];
    SnocEqual(c.fifo[1..n], c.rxShift, d.rxShift);
  }

  lemma SnocEqual(s: seq<byte>, x: byte, y: byte)
    ensures s + [x] == s + [y] <==> x == y
  {
    assert (s + [x])[|s|] == x && (s + [y])[|s|] == y;
  }

  /** Two channels that feed alike and do not after one read: what waits for the freed
      position is in neither feed. */
  lemma FeedHidesWaiting() returns (c: Serial, d: Serial)
    ensures c.Wf() && d.Wf() && 0 < c.fifoCount <= RX_FIFO && 0 < d.fifoCount <= RX_FIFO
    ensures Stream(SerialItems(SerialLive(c))) == Stream(SerialItems(SerialLive(d)))
    ensures Stream(SerialItems(SerialLive(ReadData(c)))) != Stream(SerialItems(SerialLive(ReadData(d))))
  {
    c := Serial(0, 0, false, 0, 0, [7, 0, 0], [0, 0, 0], 1, 1, true, true, false, 0, false);
    d := c.(rxShift := 2);
    assert SerialLive(c) == SerialLive(d);
    hide Stream, SerialItems, ReadData, SerialLive;
    ReadKeepsFeedIff(c, d);
  }

  // ----- the SCSI adapter's interrupt queue ------------------------------------------

  const IRQ_QUEUE: nat := 32

  datatype AscQueue = AscQueue(slots: seq<byte>, head: nat, count: long, awaitingAck: bool, icmbInUse: quad) {
    predicate Wf() { |slots| == IRQ_QUEUE }
  }

  datatype LiveAsc = LiveAsc(queue: seq<byte>, awaitingAck: bool, icmbInUse: quad)

  function AscLive(q: AscQueue): LiveAsc
    requires q.Wf()
  {
    LiveAsc(Ring(q.slots, q.head, q.count), q.awaitingAck, q.icmbInUse)
  }

  function AscItems(l: LiveAsc, count: long): seq<Item> {
    [Scalars([U32(count)]), Scalars(Longs(AsLongs(l.queue))), Scalars([Bool(l.awaitingAck), U64(l.icmbInUse)])]
  }

  lemma AscExact(q: AscQueue, x: seq<byte>, r: AscQueue, y: seq<byte>)
    requires q.Wf() && r.Wf()
    ensures Stream(AscItems(AscLive(q), q.count)) + x == Stream(AscItems(AscLive(r), r.count)) + y <==>
            AscLive(q) == AscLive(r) && x == y
  {
    var l, m := AscLive(q), AscLive(r);
    var a, b := AscItems(l, q.count), AscItems(m, r.count);
    if Stream(a) + x == Stream(b) + y {
      assert a[..1] == b[..1] ==> q.count == r.count by {
        assert a[..1][0] == a[0] && b[..1][0] == b[0];
        assert B32(a[0], 0) == q.count && B32(b[0], 0) == r.count;
      }
      StreamInjective(a, x, b, y);
      ReadBack([], [], AsLongs(l.queue));
      ReadBack([], [], AsLongs(m.queue));
      assert AsLongs(l.queue) == LongsOf(a[1]) == LongsOf(b[1]) == AsLongs(m.queue);
      assert forall i :: 0 <= i < |l.queue| ==> l.queue[i] == AsLongs(l.queue)[i] == AsLongs(m.queue)[i] == m.queue[i];
      assert Flag(a[2], 0) == l.awaitingAck && B64(a[2], 1) == l.icmbInUse;
      assert Flag(b[2], 0) == m.awaitingAck && B64(b[2], 1) == m.icmbInUse;
    } else {
      assert |l.queue| == q.count && |m.queue| == r.count;
    }
  }

  method FeedAsc(st: Hash, q: AscQueue)
    requires st.Valid() && q.Wf()
    modifies st
    ensures st.Valid() && st.fed == old(st.fed) + Stream(AscItems(AscLive(q), q.count))
  {
    hide Line, Longs, AsLongs, Ring, Digest, Stream;
    st.Fields([U32(q.count)]);
    st.RingLongs(q.slots, q.head, q.count);
    st.Fields([Bool(q.awaitingAck), U64(q.icmbInUse)]);
    Stream3(AscItems(AscLive(q), q.count));
  }

  // ----- the keyboard -------------------------------------------------------------------

  const KEYS: nat := 0x80

  datatype Keyboard = Keyboard(down: seq<bool>, loopback: bool, rxMessage: long, keystateMode: bool,
                               pointingAbsolute: bool, capsLed: bool,
                               buffer: seq<byte>, fromReply: seq<bool>, head: nat, buffered: long,
                               replyBuffered: long, keyBuffered: long,
                               txAt: quad, held: long, repeating: bool, repeatAt: quad, beeperUntil: quad)
  {
    predicate Wf() { |down| == KEYS && 0 < |buffer| == |fromReply| }
  }

  datatype LiveKeyboard = LiveKeyboard(down: seq<bool>, loopback: bool, rxMessage: long, keystateMode: bool,
                                       pointingAbsolute: bool, capsLed: bool, count: long,
                                       queue: seq<byte>, replyBuffered: long, keyBuffered: long, fromReply: seq<bool>,
                                       txAt: quad, held: long, repeating: bool, repeatAt: quad, beeperUntil: quad)

  function KeyboardLive(k: Keyboard): LiveKeyboard
    requires k.Wf()
  {
    LiveKeyboard(k.down, k.loopback, k.rxMessage, k.keystateMode, k.pointingAbsolute, k.capsLed, k.buffered,
                 Ring(k.buffer, k.head, k.buffered), k.replyBuffered, k.keyBuffered,
                 Ring(k.fromReply, k.head, k.buffered),
                 k.txAt, k.held, k.repeating, k.repeatAt, k.beeperUntil)
  }

  function KeyboardItems(l: LiveKeyboard): seq<Item> {
    [Scalars(Flags(l.down)),
     Scalars([Bool(l.loopback), U32(l.rxMessage), Bool(l.keystateMode), Bool(l.pointingAbsolute), Bool(l.capsLed),
         U32(l.count)]),
     Scalars(Eights(l.queue)),
     Scalars([U32(l.replyBuffered), U32(l.keyBuffered)]),
     Scalars(Flags(l.fromReply)),
     Scalars([Time(l.txAt), U32(l.held), Bool(l.repeating), Time(l.repeatAt), Time(l.beeperUntil)])]
  }

  function KeyboardFrom(s: seq<Item>): LiveKeyboard
    requires |s| == 6
  {
    LiveKeyboard(FlagsOf(s[0]), Flag(s[1], 0), B32(s[1], 1), Flag(s[1], 2), Flag(s[1], 3), Flag(s[1], 4), B32(s[1], 5),
                 Bytes(s[2]), B32(s[3], 0), B32(s[3], 1), FlagsOf(s[4]),
                 BTime(s[5], 0), B32(s[5], 1), Flag(s[5], 2), BTime(s[5], 3), BTime(s[5], 4))
  }

  lemma KeyboardBack(l: LiveKeyboard)
    ensures KeyboardFrom(KeyboardItems(l)) == l
  {
  }

  /** Two keyboards feed alike exactly when they hold the same keys, modes, queued
      bytes in order with the same senders, and deadlines. */
  lemma KeyboardExact(j: Keyboard, x: seq<byte>, k: Keyboard, y: seq<byte>)
    requires j.Wf() && k.Wf()
    ensures Stream(KeyboardItems(KeyboardLive(j))) + x == Stream(KeyboardItems(KeyboardLive(k))) + y <==>
            KeyboardLive(j) == KeyboardLive(k) && x == y
  {
    hide Stream, Eights, Flags, Ring;
    var a, b := KeyboardItems(KeyboardLive(j)), KeyboardItems(KeyboardLive(k));
    if Stream(a) + x == Stream(b) + y {
      forall i | 0 <= i < 6 && a[..i] == b[..i]
        ensures SameKind(a[i], b[i])
      {
        if i > 1 {
          Agreed(a, b, i, 1);
          assert B32(a[1], 5) == j.buffered && B32(b[1], 5) == k.buffered;
        }
      }
      StreamInjective(a, x, b, y);
      KeyboardBack(KeyboardLive(j));
      KeyboardBack(KeyboardLive(k));
    }
  }

  method FeedKeyboard(st: Hash, k: Keyboard)
    requires st.Valid() && k.Wf()
    modifies st
    ensures st.Valid() && st.fed == old(st.fed) + Stream(KeyboardItems(KeyboardLive(k)))
  {
    hide Encode, Digest, Stream;
    ghost var items := KeyboardItems(KeyboardLive(k));
    FeedKeys(st, k);
    FeedSenders(st, k);
    Stream3(items[..3]);
    Stream3(items[3..]);
    StreamConcat(items[..3], items[3..]);
    assert items[..3] + items[3..] == items;
  }

  method FeedKeys(st: Hash, k: Keyboard)
    requires st.Valid() && k.Wf()
    modifies st
    ensures st.Valid()
    ensures var s := KeyboardItems(KeyboardLive(k));
            st.fed == old(st.fed) + (Encode(s[0]) + Encode(s[1]) + Encode(s[2]))
  {
    hide Line, Flags, Eights, Ring, Digest;
    st.Fields(Flags(k.down));
    st.Fields([Bool(k.loopback), U32(k.rxMessage), Bool(k.keystateMode), Bool(k.pointingAbsolute), Bool(k.capsLed),
        U32(k.buffered)]);
    st.RingBytes(k.buffer, k.head, k.buffered);
  }

  method FeedSenders(st: Hash, k: Keyboard)
    requires st.Valid() && k.Wf()
    modifies st
    ensures st.Valid()
    ensures var s := KeyboardItems(KeyboardLive(k));
            st.fed == old(st.fed) + (Encode(s[3]) + Encode(s[4]) + Encode(s[5]))
  {
    hide Line, Flags, Eights, Ring, Digest;
    st.Fields([U32(k.replyBuffered), U32(k.keyBuffered)]);
    st.Fields(Flags(Ring(k.fromReply, k.head, k.buffered)));
    st.Fields([Time(k.txAt), U32(k.held), Bool(k.repeating), Time(k.repeatAt), Time(k.beeperUntil)]);
  }

  /** What was fed before is already known to agree. */
  lemma Agreed(a: seq<Item>, b: seq<Item>, i: nat, k: nat)
    requires k < i <= |a| == |b| && a[..i] == b[..i]
    ensures a[k] == b[k]
  {
  }

  // ----- the tape's two transfer buffers ---------------------------------------------------

  const TAPE_BLOCK: nat := 512
  const STATUS_BYTES: nat := 6

  datatype Tape = Tape(blockValid: bool, offset: long, block: seq<byte>, statusValid: bool, statusOffset: long,
                       statusBlock: seq<byte>, firstBlockPending: bool, markByteSent: bool)
  {
    predicate Wf() { |block| == TAPE_BLOCK && |statusBlock| == STATUS_BYTES }
  }

  /** A buffer is live only while it is valid; the data offset is fed either way. */
  datatype LiveTape = LiveTape(blockValid: bool, offset: long, block: seq<byte>, statusValid: bool,
                               statusOffset: seq<Scalar>, statusBlock: seq<byte>, firstBlockPending: bool,
                                   markByteSent: bool)

  function TapeLive(t: Tape): LiveTape {
    LiveTape(t.blockValid, t.offset, if t.blockValid then t.block else [], t.statusValid,
             if t.statusValid then [U32(t.statusOffset)] else [], if t.statusValid then t.statusBlock else [],
             t.firstBlockPending, t.markByteSent)
  }

  function TapeItems(l: LiveTape): seq<Item> {
    [Scalars([Bool(l.blockValid), U32(l.offset)]), Raw(l.block), Scalars([Bool(l.statusValid)]),
     Scalars(l.statusOffset), Raw(l.statusBlock), Scalars([Bool(l.firstBlockPending), Bool(l.markByteSent)])]
  }

  lemma TapeExact(t: Tape, x: seq<byte>, u: Tape, y: seq<byte>)
    requires t.Wf() && u.Wf()
    ensures Stream(TapeItems(TapeLive(t))) + x == Stream(TapeItems(TapeLive(u))) + y <==>
            TapeLive(t) == TapeLive(u) && x == y
  {
    hide Stream;
    var a, b := TapeItems(TapeLive(t)), TapeItems(TapeLive(u));
    if Stream(a) + x == Stream(b) + y {
      forall i | 0 <= i < 6 && a[..i] == b[..i]
        ensures SameKind(a[i], b[i])
      {
        if i > 0 { Agreed(a, b, i, 0); assert Flag(a[0], 0) == t.blockValid && Flag(b[0], 0) == u.blockValid; }
        if i > 2 { Agreed(a, b, i, 2); assert Flag(a[2], 0) == t.statusValid && Flag(b[2], 0) == u.statusValid; }
      }
      StreamInjective(a, x, b, y);
      assert Flag(a[0], 0) == t.blockValid && B32(a[0], 1) == t.offset && Flag(a[2], 0) == t.statusValid;
      assert Flag(b[0], 0) == u.blockValid && B32(b[0], 1) == u.offset && Flag(b[2], 0) == u.statusValid;
      assert Flag(a[5], 0) == t.firstBlockPending && Flag(a[5], 1) == t.markByteSent;
      assert Flag(b[5], 0) == u.firstBlockPending && Flag(b[5], 1) == u.markByteSent;
    }
  }

  lemma TapeHead(t: Tape)
    requires t.Wf()
    ensures Stream(TapeItems(TapeLive(t))[..3]) ==
            Line([Bool(t.blockValid), U32(t.offset)]) + (if t.blockValid then t.block else [])
            + Line([Bool(t.statusValid)])
  {
    hide Line, Bool;
    Stream3(TapeItems(TapeLive(t))[..3]);
    hide Stream;
  }

  lemma TapeTail(t: Tape)
    requires t.Wf()
    ensures Stream(TapeItems(TapeLive(t))[3..]) ==
            (if t.statusValid then Line([U32(t.statusOffset)]) + t.statusBlock else [])
            + Line([Bool(t.firstBlockPending), Bool(t.markByteSent)])
  {
    assert Line([]) == [];
    hide Line, Bool;
    Stream3(TapeItems(TapeLive(t))[3..]);
    hide Stream;
  }

  lemma TapeStream(t: Tape)
    requires t.Wf()
    ensures Stream(TapeItems(TapeLive(t))) ==
            Line([Bool(t.blockValid), U32(t.offset)]) + (if t.blockValid then t.block else [])
            + Line([Bool(t.statusValid)])
            + ((if t.statusValid then Line([U32(t.statusOffset)]) + t.statusBlock else [])
               + Line([Bool(t.firstBlockPending), Bool(t.markByteSent)]))
  {
    assert |TapeItems(TapeLive(t))| == 6;
    hide TapeItems, TapeLive, Stream, Line, Bool;
    StreamSplit(TapeItems(TapeLive(t)), 3);
    TapeHead(t);
    TapeTail(t);
  }

  method FeedTape(st: Hash, t: Tape)
    requires st.Valid() && t.Wf()
    modifies st
    ensures st.Valid() && st.fed == old(st.fed) + Stream(TapeItems(TapeLive(t)))
  {
    hide Line, Digest, Stream, TapeItems, TapeLive, Bool;
    TapeStream(t);
    st.Fields([Bool(t.blockValid), U32(t.offset)]);
    if t.blockValid {
      st.Bytes(t.block);
    }
    st.Fields([Bool(t.statusValid)]);
    if t.statusValid {
      st.Fields([U32(t.statusOffset)]);
      st.Bytes(t.statusBlock);
    }
    st.Fields([Bool(t.firstBlockPending), Bool(t.markByteSent)]);
  }

  // ----- the 802.3 card and its adapter ------------------------------------------------------

  const DATA_FIFO: nat := 20

  datatype Card = Card(hcr: byte, acr: byte, auxDma: byte, toAdapter: byte, toAdapterFull: bool, toHost: byte,
                       toHostFull: bool, fifo: seq<byte>, fifoCount: long, dmaDone: bool,
                       testJumper: bool, sixteenBit: bool, sincePause: long, pauseOwed: bool, initialising: bool)
  {
    predicate Wf() { |fifo| == DATA_FIFO }
  }

  /** The card with its buffer cut to what it holds. */
  function CardLive(c: Card): Card
    requires c.Wf()
  {
    c.(fifo := c.fifo[..Min(c.fifoCount, DATA_FIFO)])
  }

  function CardItems(l: Card): seq<Item> {
    [Scalars(CardHead(l)), Scalars(Eights(l.fifo)), Scalars(CardTail(l))]
  }

  function CardFrom(s: seq<Item>): Card
    requires |s| == 3
  {
    Card(B8(s[0], 0), B8(s[0], 1), B8(s[0], 2), B8(s[0], 3), Flag(s[0], 4), B8(s[0], 5), Flag(s[0], 6),
         Bytes(s[1]), B32(s[0], 7), Flag(s[2], 0), Flag(s[2], 1), Flag(s[2], 2), B32(s[2], 3), Flag(s[2], 4),
         Flag(s[2], 5))
  }

  lemma CardBack(l: Card)
    ensures CardFrom(CardItems(l)) == l
  {
  }

  lemma CardExact(c: Card, x: seq<byte>, d: Card, y: seq<byte>)
    requires c.Wf() && d.Wf()
    ensures Stream(CardItems(CardLive(c))) + x == Stream(CardItems(CardLive(d))) + y <==>
            CardLive(c) == CardLive(d) && x == y
  {
    hide Stream, Eights;
    var a, b := CardItems(CardLive(c)), CardItems(CardLive(d));
    if Stream(a) + x == Stream(b) + y {
      forall i | 0 <= i < 3 && a[..i] == b[..i]
        ensures SameKind(a[i], b[i])
      {
        if i > 0 { Agreed(a, b, i, 0); assert B32(a[0], 7) == c.fifoCount && B32(b[0], 7) == d.fifoCount; }
      }
      StreamInjective(a, x, b, y);
      CardBack(CardLive(c));
      CardBack(CardLive(d));
    }
  }

  function CardHead(c: Card): seq<Scalar> {
    [U8(c.hcr), U8(c.acr), U8(c.auxDma), U8(c.toAdapter), Bool(c.toAdapterFull), U8(c.toHost), Bool(c.toHostFull),
     U32(c.fifoCount)]
  }

  function CardTail(c: Card): seq<Scalar> {
    [Bool(c.dmaDone), Bool(c.testJumper), Bool(c.sixteenBit), U32(c.sincePause), Bool(c.pauseOwed),
        Bool(c.initialising)]
  }

  lemma CardStream(c: Card)
    requires c.Wf()
    ensures Stream(CardItems(CardLive(c))) ==
            Line(CardHead(c)) + Line(Eights(c.fifo[..Min(c.fifoCount, |c.fifo|)])) + Line(CardTail(c))
  {
    Stream3(CardItems(CardLive(c)));
    hide Stream, Line, Eights;
  }

  method FeedCard(st: Hash, c: Card)
    requires st.Valid() && c.Wf()
    modifies st
    ensures st.Valid() && st.fed == old(st.fed) + Stream(CardItems(CardLive(c)))
  {
    hide Line, Eights, Digest, Stream, CardItems, CardLive, CardHead, CardTail;
    CardStream(c);
    st.Fields(CardHead(c));
    st.Prefix(c.fifo, c.fifoCount);
    st.Fields(CardTail(c));
  }

  const MULTICAST_MAX: nat := 10
  const PCB_MAX: nat := 64
  const PCB_DATA_MAX: nat := 62
  const FRAME_MAX: nat := 1514

  datatype Statistics = Statistics(received: long, transmitted: long, crc: word, alignment: word, noResource: word,
                                   overrun: word)
  datatype Incoming = Incoming(written: long, buffer: seq<byte>)
  datatype Reply = Reply(command: byte, length: byte, data: seq<byte>, sent: long, active: bool, total: bool)
  datatype Transmit = Transmit(armed: bool, length: long, received: long, offset: word, segment: word,
                               buffer: seq<byte>)
  datatype Receive = Receive(armed: bool, offset: word, segment: word, size: word, timeout: word,
                             stagedLength: long, stagedRead: long, staged: seq<byte>)

  /** The adapter behind the card; `multicast` is its address table row by row. */
  datatype Adapter = Adapter(address: seq<byte>, receiveMode: word, multicastCount: long, multicast: seq<byte>,
                             statistics: Statistics, wireTransmit: bool, wireContext: bool, incoming: Incoming,
                             reply: Reply, transmit: Transmit, receive: Receive)
  {
    predicate Wf() {
      && |address| == 6 && |multicast| == 6 * MULTICAST_MAX && |incoming.buffer| == PCB_MAX
      && |reply.data| == PCB_DATA_MAX && |transmit.buffer| == |receive.staged| == FRAME_MAX
    }
  }

  /** The adapter with every buffer cut to what it holds. */
  function AdapterLive(x: Adapter): Adapter
    requires x.Wf()
  {
    x.(multicast := x.multicast[..6 * Min(x.multicastCount, MULTICAST_MAX)],
       reply := x.reply.(data := x.reply.data[..Min(x.reply.length, PCB_DATA_MAX)]),
       transmit := x.transmit.(buffer := x.transmit.buffer[..Min(x.transmit.received, FRAME_MAX)]),
       receive := x.receive.(staged := x.receive.staged[..Min(x.receive.stagedLength, FRAME_MAX)]))
  }

  function AdapterItems(l: Adapter): seq<Item> {
    [Scalars(Eights(l.address)),
     Scalars([U16(l.receiveMode), U32(l.multicastCount)]),
     Scalars(Eights(l.multicast)),
     Scalars([U32(l.statistics.received), U32(l.statistics.transmitted), U16(l.statistics.crc),
         U16(l.statistics.alignment), U16(l.statistics.noResource), U16(l.statistics.overrun), Bool(l.wireTransmit),
         Bool(l.wireContext), U32(l.incoming.written)]),
     Raw(l.incoming.buffer),
     Scalars([U8(l.reply.command), U8(l.reply.length)]),
     Scalars(Eights(l.reply.data)),
     Scalars([U32(l.reply.sent), Bool(l.reply.active), Bool(l.reply.total), Bool(l.transmit.armed),
         U32(l.transmit.length), U32(l.transmit.received), U16(l.transmit.offset), U16(l.transmit.segment)]),
     Scalars(Eights(l.transmit.buffer)),
     Scalars([Bool(l.receive.armed), U16(l.receive.offset), U16(l.receive.segment), U16(l.receive.size),
              U16(l.receive.timeout), U32(l.receive.stagedLength), U32(l.receive.stagedRead)]),
     Scalars(Eights(l.receive.staged))]
  }

  function AdapterFrom(s: seq<Item>): Adapter
    requires |s| == 11
  {
    Adapter(Bytes(s[0]), B16(s[1], 0), B32(s[1], 1), Bytes(s[2]),
            Statistics(B32(s[3], 0), B32(s[3], 1), B16(s[3], 2), B16(s[3], 3), B16(s[3], 4), B16(s[3], 5)),
            Flag(s[3], 6), Flag(s[3], 7), Incoming(B32(s[3], 8), Bytes(s[4])),
            Reply(B8(s[5], 0), B8(s[5], 1), Bytes(s[6]), B32(s[7], 0), Flag(s[7], 1), Flag(s[7], 2)),
            Transmit(Flag(s[7], 3), B32(s[7], 4), B32(s[7], 5), B16(s[7], 6), B16(s[7], 7), Bytes(s[8])),
            Receive(Flag(s[9], 0), B16(s[9], 1), B16(s[9], 2), B16(s[9], 3), B16(s[9], 4), B32(s[9], 5), B32(s[9], 6),
                Bytes(s[10])))
  }

  lemma AdapterBack(l: Adapter)
    ensures AdapterFrom(AdapterItems(l)) == l
  {
    ReadBack(l.address, [], []);
    ReadBack(l.multicast, [], []);
    ReadBack(l.reply.data, [], []);
    ReadBack(l.transmit.buffer, [], []);
    ReadBack(l.receive.staged, [], []);
  }

  lemma AdapterExact(x: Adapter, p: seq<byte>, y: Adapter, q: seq<byte>)
    requires x.Wf() && y.Wf()
    ensures Stream(AdapterItems(AdapterLive(x))) + p == Stream(AdapterItems(AdapterLive(y))) + q <==>
            AdapterLive(x) == AdapterLive(y) && p == q
  {
    hide Stream, Eights;
    var a, b := AdapterItems(AdapterLive(x)), AdapterItems(AdapterLive(y));
    if Stream(a) + p == Stream(b) + q {
      forall i | 0 <= i < 11 && a[..i] == b[..i]
        ensures SameKind(a[i], b[i])
      {
        if i > 1 { Agreed(a, b, i, 1); assert B32(a[1], 1) == x.multicastCount && B32(b[1], 1) == y.multicastCount; }
        if i > 5 { Agreed(a, b, i, 5); assert B8(a[5], 1) == x.reply.length && B8(b[5], 1) == y.reply.length; }
        if i > 7 {
          Agreed(a, b, i, 7);
          assert B32(a[7], 5) == x.transmit.received && B32(b[7], 5) == y.transmit.received;
        }
        if i > 9 {
          Agreed(a, b, i, 9);
          assert B32(a[9], 5) == x.receive.stagedLength && B32(b[9], 5) == y.receive.stagedLength;
        }
      }
      StreamInjective(a, p, b, q);
      AdapterBack(AdapterLive(x));
      AdapterBack(AdapterLive(y));
    }
  }

  lemma AdapterLength(l: Adapter)
    ensures |AdapterItems(l)| == 11
  {
  }

  method FeedAdapter(st: Hash, x: Adapter)
    requires st.Valid() && x.Wf()
    modifies st
    ensures st.Valid() && st.fed == old(st.fed) + Stream(AdapterItems(AdapterLive(x)))
  {
    hide AdapterItems, AdapterLive, Stream, Digest, Encode;
    AdapterLength(AdapterLive(x));
    ThreeParts(AdapterItems(AdapterLive(x)), 5, 8);
    FeedAddresses(st, x);
    FeedCommands(st, x);
    FeedFrames(st, x);
  }

  method FeedAddresses(st: Hash, x: Adapter)
    requires st.Valid() && x.Wf()
    modifies st
    ensures st.Valid() && st.fed == old(st.fed) + Stream(AdapterItems(AdapterLive(x))[..5])
  {
    hide Line, Eights, Digest, Stream, Encode;
    ghost var items := AdapterItems(AdapterLive(x));
    FeedGroups(st, x);
    var s := x.statistics;
    st.Fields([U32(s.received), U32(s.transmitted), U16(s.crc), U16(s.alignment), U16(s.noResource), U16(s.overrun),
               Bool(x.wireTransmit), Bool(x.wireContext), U32(x.incoming.written)]);
    EncodeLine(items[3]);
    StreamTake(items, 3);
    st.Bytes(x.incoming.buffer);
    EncodeLine(items[4]);
    StreamTake(items, 4);
  }

  method FeedGroups(st: Hash, x: Adapter)
    requires st.Valid() && x.Wf()
    modifies st
    ensures st.Valid() && st.fed == old(st.fed) + Stream(AdapterItems(AdapterLive(x))[..3])
  {
    hide Line, Eights, Digest, Stream;
    st.Fields(Eights(x.address));
    st.Fields([U16(x.receiveMode), U32(x.multicastCount)]);
    st.Prefix(x.multicast, 6 * x.multicastCount);
    Stream3(AdapterItems(AdapterLive(x))[..3]);
  }

  lemma EncodeLine(i: Item)
    ensures Encode(i) == if i.Scalars? then Line(i.fields) else i.bytes
  {
  }

  method FeedCommands(st: Hash, x: Adapter)
    requires st.Valid() && x.Wf()
    modifies st
    ensures st.Valid() && st.fed == old(st.fed) + Stream(AdapterItems(AdapterLive(x))[5..8])
  {
    hide Line, Eights, Digest, Stream;
    st.Fields([U8(x.reply.command), U8(x.reply.length)]);
    st.Prefix(x.reply.data, x.reply.length as nat);
    var t := x.transmit;
    st.Fields([U32(x.reply.sent), Bool(x.reply.active), Bool(x.reply.total), Bool(t.armed), U32(t.length),
               U32(t.received), U16(t.offset), U16(t.segment)]);
    Stream3(AdapterItems(AdapterLive(x))[5..8]);
  }

  method FeedFrames(st: Hash, x: Adapter)
    requires st.Valid() && x.Wf()
    modifies st
    ensures st.Valid() && st.fed == old(st.fed) + Stream(AdapterItems(AdapterLive(x))[8..])
  {
    hide Line, Eights, Digest, Stream;
    st.Prefix(x.transmit.buffer, x.transmit.received);
    var r := x.receive;
    st.Fields([Bool(r.armed), U16(r.offset), U16(r.segment), U16(r.size), U16(r.timeout), U32(r.stagedLength),
        U32(r.stagedRead)]);
    st.Prefix(r.staged, r.stagedLength);
    Stream3(AdapterItems(AdapterLive(x))[8..]);
  }

  // ----- the ring station ------------------------------------------------------------------

  /** A buffer lent to the station: absent, or there with its bytes. */
  datatype Lent = Absent | Lent(bytes: seq<byte>)

  datatype Sender = Sender(capacity: long, bitCount: long, bitPos: long, armed: bool, bits: Lent)
  datatype Receiver = Receiver(state: long, onesRun: long, bitCount: long, partial: byte, header: seq<byte>,
                               headerLen: long, addressed: bool, capacity: long, bytes: long, headerBytes: long,
                               overrun: bool, headerBits: long, flippedParity: bool, separators: long, fcsBits: long,
                               lateBits: long, late: byte, frameError: bool)
  datatype Wire = Wire(framesCopied: quad, seenOwnStart: bool, strippedOwn: quad, ack: byte, ackValid: bool,
                         window: word, bitsSeen: long, pendingBit: bool, pendingValid: bool, txLevel: bool,
                         rxLevel: bool,
                         rxLevelValid: bool, wantsRing: bool, holdsRing: bool, stripping: bool, bitsSinceToken: quad,
                         bitsStripping: quad, originateSymbol: word, originateLeft: byte)

  datatype Station = Station(slot: long, address: long, receiveEnabled: bool, tx: Sender, rx: Receiver, line: Wire,
                             frame: Lent)
  {
    /** A lent buffer is as long as its capacity says. */
    predicate Wf() {
      && |rx.header| == 8
      && (tx.bits.Lent? ==> |tx.bits.bytes| == tx.capacity)
      && (frame.Lent? ==> |frame.bytes| == rx.capacity)
    }
  }

  function Cut(b: Lent, n: nat): Lent {
    match b case Absent => Absent case Lent(bytes) => Lent(bytes[..Min(n, |bytes|)])
  }

  /** The station with its frames cut to the bits assembled and the bytes received. */
  function StationLive(s: Station): Station {
    s.(tx := s.tx.(bits := Cut(s.tx.bits, (s.tx.bitCount + 7) / 8)), frame := Cut(s.frame, s.rx.bytes))
  }

  function Presence(b: Lent): Scalar { if b.Lent? then U8(0x01) else U8(0xFF) }
  function Contents(b: Lent): seq<byte> { if b.Lent? then b.bytes else [] }
  function LentFrom(mark: byte, bytes: seq<byte>): Lent { if mark == 1 then Lent(bytes) else Absent }

  function TxFields(l: Station): seq<Scalar> {
    [U32(l.slot), U32(l.address), Bool(l.receiveEnabled), U32(l.tx.capacity), U32(l.tx.bitCount), U32(l.tx.bitPos),
     Bool(l.tx.armed), Presence(l.tx.bits)]
  }

  function RxFields(r: Receiver): seq<Scalar> {
    [U32(r.headerLen), Bool(r.addressed), U32(r.capacity), U32(r.bytes), U32(r.headerBytes), Bool(r.overrun),
     U32(r.headerBits), Bool(r.flippedParity), U32(r.separators), U32(r.fcsBits), U32(r.lateBits), U8(r.late),
         Bool(r.frameError)]
  }

  function WireFields(w: Wire): seq<Scalar> {
    [U64(w.framesCopied), Bool(w.seenOwnStart), U64(w.strippedOwn), U8(w.ack), Bool(w.ackValid), U16(w.window),
     U32(w.bitsSeen), Bool(w.pendingBit), Bool(w.pendingValid), Bool(w.txLevel), Bool(w.rxLevel), Bool(w.rxLevelValid)]
  }

  function TokenFields(w: Wire, frame: Lent): seq<Scalar> {
    [Bool(w.wantsRing), Bool(w.holdsRing), Bool(w.stripping), U64(w.bitsSinceToken), U64(w.bitsStripping),
     U16(w.originateSymbol), U8(w.originateLeft), Presence(frame)]
  }

  function StationItems(l: Station): seq<Item> {
    [Scalars(TxFields(l)),
     Raw(Contents(l.tx.bits)),
     Scalars(BitFields(l.rx)),
     Scalars(Eights(l.rx.header)),
     Scalars(RxFields(l.rx)),
     Scalars(WireFields(l.line)),
     Scalars(TokenFields(l.line, l.frame)),
     Raw(Contents(l.frame))]
  }

  function TxFrom(i: Item, bits: seq<byte>): Sender {
    Sender(B32(i, 3), B32(i, 4), B32(i, 5), Flag(i, 6), LentFrom(B8(i, 7), bits))
  }

  function RxFrom(i: Item, header: seq<byte>, j: Item): Receiver {
    Receiver(B32(i, 0), B32(i, 1), B32(i, 2), B8(i, 3), header, B32(j, 0), Flag(j, 1), B32(j, 2), B32(j, 3), B32(j, 4),
             Flag(j, 5), B32(j, 6), Flag(j, 7), B32(j, 8), B32(j, 9), B32(j, 10), B8(j, 11), Flag(j, 12))
  }

  function WireFrom(i: Item, j: Item): Wire {
    Wire(B64(i, 0), Flag(i, 1), B64(i, 2), B8(i, 3), Flag(i, 4), B16(i, 5), B32(i, 6), Flag(i, 7), Flag(i, 8),
         Flag(i, 9), Flag(i, 10), Flag(i, 11), Flag(j, 0), Flag(j, 1), Flag(j, 2), B64(j, 3), B64(j, 4), B16(j, 5),
         B8(j, 6))
  }

  function StationFrom(s: seq<Item>): Station
    requires |s| == 8
  {
    Station(B32(s[0], 0), B32(s[0], 1), Flag(s[0], 2), TxFrom(s[0], Bytes(s[1])), RxFrom(s[2], Bytes(s[3]), s[4]),
            WireFrom(s[5], s[6]), LentFrom(B8(s[6], 7), Bytes(s[7])))
  }

  lemma TxBack(l: Station)
    ensures var i := Scalars(TxFields(l));
            B32(i, 0) == l.slot && B32(i, 1) == l.address && Flag(i, 2) == l.receiveEnabled
            && TxFrom(i, Contents(l.tx.bits)) == l.tx
  {
  }

  lemma RxBack(r: Receiver)
    ensures RxFrom(Scalars(BitFields(r)),
                   Bytes(Scalars(Eights(r.header))), Scalars(RxFields(r))) == r
  {
    ReadBack(r.header, [], []);
    hide Bytes, Eights;
  }

  lemma WireBack(w: Wire, frame: Lent)
    ensures WireFrom(Scalars(WireFields(w)), Scalars(TokenFields(w, frame))) == w
  {
    LineBack(w, Scalars(TokenFields(w, frame)));
    TokenBack(w, frame, Scalars(WireFields(w)));
    hide WireFields, TokenFields, B8, B16, B32, B64, Flag;
  }

  lemma LineBack(w: Wire, j: Item)
    ensures var v := WireFrom(Scalars(WireFields(w)), j);
            && v.framesCopied == w.framesCopied && v.seenOwnStart == w.seenOwnStart && v.strippedOwn == w.strippedOwn
            && v.ack == w.ack && v.ackValid == w.ackValid && v.window == w.window && v.bitsSeen == w.bitsSeen
            && v.pendingBit == w.pendingBit && v.pendingValid == w.pendingValid && v.txLevel == w.txLevel
            && v.rxLevel == w.rxLevel && v.rxLevelValid == w.rxLevelValid
  {
  }

  lemma TokenBack(w: Wire, frame: Lent, i: Item)
    ensures var v := WireFrom(i, Scalars(TokenFields(w, frame)));
            && v.wantsRing == w.wantsRing && v.holdsRing == w.holdsRing && v.stripping == w.stripping
            && v.bitsSinceToken == w.bitsSinceToken && v.bitsStripping == w.bitsStripping
            && v.originateSymbol == w.originateSymbol && v.originateLeft == w.originateLeft
  {
  }

  lemma FrameBack(w: Wire, frame: Lent)
    ensures LentFrom(B8(Scalars(TokenFields(w, frame)), 7), Contents(frame)) == frame
  {
  }

  lemma StationBack(l: Station)
    ensures StationFrom(StationItems(l)) == l
  {
    TxBack(l);
    RxBack(l.rx);
    WireBack(l.line, l.frame);
    FrameBack(l.line, l.frame);
    hide TxFields, RxFields, WireFields, TokenFields, TxFrom, RxFrom, WireFrom, Contents, LentFrom, B8, B32, Flag,
        Eights;
  }

  lemma StationExact(s: Station, x: seq<byte>, t: Station, y: seq<byte>)
    requires s.Wf() && t.Wf()
    ensures Stream(StationItems(StationLive(s))) + x == Stream(StationItems(StationLive(t))) + y <==>
            StationLive(s) == StationLive(t) && x == y
  {
    hide Stream, Eights;
    var a, b := StationItems(StationLive(s)), StationItems(StationLive(t));
    if Stream(a) + x == Stream(b) + y {
      forall i | 0 <= i < 8 && a[..i] == b[..i]
        ensures SameKind(a[i], b[i])
      {
        if i > 0 {
          Agreed(a, b, i, 0);
          assert B32(a[0], 3) == s.tx.capacity && B32(b[0], 3) == t.tx.capacity;
          assert B32(a[0], 4) == s.tx.bitCount && B32(b[0], 4) == t.tx.bitCount;
          assert (B8(a[0], 7) == 1) == s.tx.bits.Lent? && (B8(b[0], 7) == 1) == t.tx.bits.Lent?;
        }
        if i > 6 {
          Agreed(a, b, i, 4);
          Agreed(a, b, i, 6);
          assert B32(a[4], 2) == s.rx.capacity && B32(b[4], 2) == t.rx.capacity;
          assert B32(a[4], 3) == s.rx.bytes && B32(b[4], 3) == t.rx.bytes;
          assert (B8(a[6], 7) == 1) == s.frame.Lent? && (B8(b[6], 7) == 1) == t.frame.Lent?;
        }
      }
      StreamInjective(a, x, b, y);
      StationBack(StationLive(s));
      StationBack(StationLive(t));
    }
  }

  lemma StationLength(l: Station)
    ensures |StationItems(l)| == 8
  {
  }

  method FeedStation(st: Hash, s: Station)
    requires st.Valid() && s.Wf()
    modifies st
    ensures st.Valid() && st.fed == old(st.fed) + Stream(StationItems(StationLive(s)))
  {
    hide StationItems, StationLive, Stream, Digest, Encode;
    StationLength(StationLive(s));
    ThreeParts(StationItems(StationLive(s)), 3, 6);
    FeedSender(st, s);
    FeedReceiver(st, s);
    FeedToken(st, s);
  }

  /** What the station has of its own frame to feed: the bits it occupies. */
  function Occupied(s: Station): seq<byte>
    requires s.Wf()
  {
    if s.tx.bits.Lent? then s.tx.bits.bytes[..Min((s.tx.bitCount as nat + 7) / 8, s.tx.capacity)] else []
  }

  function BitFields(r: Receiver): seq<Scalar> {
    [U32(r.state), U32(r.onesRun), U32(r.bitCount), U8(r.partial)]
  }

  lemma SenderStream(s: Station)
    requires s.Wf()
    ensures Stream(StationItems(StationLive(s))[..3]) == Line(TxFields(s)) + Occupied(s) + Line(BitFields(s.rx))
  {
    hide Stream, Line, RxFields, WireFields, TokenFields, BitFields, Eights, Flag, B8;
    assert TxFields(StationLive(s)) == TxFields(s);
    hide TxFields;
    Stream3(StationItems(StationLive(s))[..3]);
  }

  /** As far as the receiver's bit state. */
  method FeedSender(st: Hash, s: Station)
    requires st.Valid() && s.Wf()
    modifies st
    ensures st.Valid() && st.fed == old(st.fed) + Stream(StationItems(StationLive(s))[..3])
  {
    hide Line, Digest, Stream, StationItems, StationLive, TxFields, BitFields;
    SenderStream(s);
    st.Fields(TxFields(s));
    if s.tx.bits.Lent? {
      var n := (s.tx.bitCount as nat + 7) / 8;
      st.Bytes(s.tx.bits.bytes[..if n < s.tx.capacity then n else s.tx.capacity]);
    }
    st.Fields(BitFields(s.rx));
  }

  method FeedReceiver(st: Hash, s: Station)
    requires st.Valid() && s.Wf()
    modifies st
    ensures st.Valid() && st.fed == old(st.fed) + Stream(StationItems(StationLive(s))[3..6])
  {
    hide Line, Eights, Digest, Stream, RxFields, WireFields;
    st.Fields(Eights(s.rx.header));
    st.Fields(RxFields(s.rx));
    st.Fields(WireFields(s.line));
    Stream3(StationItems(StationLive(s))[3..6]);
  }

  lemma TokenItems(s: Station)
    requires s.Wf()
    ensures StationItems(StationLive(s))[6..] ==
            [Scalars(TokenFields(s.line, s.frame)), Raw(Contents(Cut(s.frame, s.rx.bytes)))]
  {
  }

  lemma TokenStream(s: Station)
    requires s.Wf()
    ensures Stream(StationItems(StationLive(s))[6..]) ==
            Line(TokenFields(s.line, s.frame)) + Contents(Cut(s.frame, s.rx.bytes))
  {
    hide StationItems, StationLive, TokenFields, Contents, Cut, Line, Stream;
    TokenItems(s);
    Stream2([Scalars(TokenFields(s.line, s.frame)), Raw(Contents(Cut(s.frame, s.rx.bytes)))]);
  }

  method FeedToken(st: Hash, s: Station)
    requires st.Valid() && s.Wf()
    modifies st
    ensures st.Valid() && st.fed == old(st.fed) + Stream(StationItems(StationLive(s))[6..])
  {
    hide Line, Digest, Stream, TokenFields, StationItems, StationLive;
    TokenStream(s);
    st.Fields(TokenFields(s.line, s.frame));
    if s.frame.Lent? {
      st.Bytes(s.frame.bytes[..if s.rx.bytes < s.rx.capacity then s.rx.bytes else s.rx.capacity]);
    }
  }

  lemma Stream2(s: seq<Item>)
    requires |s| == 2
    ensures Stream(s) == Encode(s[0]) + Encode(s[1])
  {
    hide Encode;
    assert s[1..][0] == s[1] && s[1..][1..] == [];
    assert Stream(s[1..]) == Encode(s[1]) + Stream([]);
  }
}

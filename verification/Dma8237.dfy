/**
 * The 8237A DMA controller: its register file, its priority encoder and the one
 * transfer it runs at a time. What the part asks of the bus is an `Op`, so that
 * memory and the peripherals stay on the board's side, as they do in the source.
 */
module Dma8237 {
  import opened Arithmetic
  import opened Words

  const CHANNELS: nat := 4

  datatype Channel = Channel(baseAddress: word, baseCount: word, address: word, count: word, mode: byte) {
    predicate Cascade() { mode / 64 == 3 }
    predicate Block() { mode / 64 == 2 }
    predicate Decrement() { mode / 32 % 2 == 1 }
    predicate AutoInit() { mode / 16 % 2 == 1 }
    /** 0 verify, 1 device to memory, 2 memory to device, 3 illegal. */
    function Direction(): nat { mode / 4 % 4 }
    function NextAddress(): word {
      if Decrement() then if address == 0 then 0xFFFF else address - 1
      else if address == 0xFFFF then 0 else address + 1
    }
    function NextCount(): word { if count == 0 then 0xFFFF else count - 1 }
  }

  /** Line and bit registers are one boolean per channel. */
  datatype Dma = Dma(channel: seq<Channel>, command: byte, status: seq<bool>, request: seq<bool>,
                     mask: seq<bool>, temporary: byte, highByte: bool, dreq: seq<bool>)
  {
    predicate Wf() {
      |channel| == |status| == |request| == |mask| == |dreq| == CHANNELS
    }
    predicate Disabled() { command / 4 % 2 == 1 }
    predicate MemToMem() { command % 2 == 1 }
    predicate HoldSource() { command / 2 % 2 == 1 }

    /** Pin requests are maskable; software requests are not, and need Block mode. */
    predicate Asking(c: nat)
      requires Wf() && c < CHANNELS
    {
      (dreq[c] && !mask[c]) || (request[c] && channel[c].Block())
    }
  }

  const NO_BITS := [false, false, false, false]
  const ALL_BITS := [true, true, true, true]
  const RESET_CHANNEL := Channel(0, 0, 0, 0, 0)
  const RESET := Dma([RESET_CHANNEL, RESET_CHANNEL, RESET_CHANNEL, RESET_CHANNEL],
                     0, NO_BITS, NO_BITS, ALL_BITS, 0, false, NO_BITS)

  /** `p` is the channel the fixed-priority encoder selects, or -1. */
  predicate IsPending(d: Dma, p: int)
    requires d.Wf()
  {
    if p == -1 then d.Disabled() || forall c :: 0 <= c < CHANNELS ==> !d.Asking(c)
    else 0 <= p < CHANNELS && !d.Disabled() && d.Asking(p) && forall c :: 0 <= c < p ==> !d.Asking(c)
  }

  function Pending(d: Dma): (p: int)
    requires d.Wf()
    ensures IsPending(d, p)
  {
    if d.Disabled() then -1
    else if d.Asking(0) then 0
    else if d.Asking(1) then 1
    else if d.Asking(2) then 2
    else if d.Asking(3) then 3
    else -1
  }

  function SetPin(d: Dma, c: nat, asserted: bool): (e: Dma)
    requires d.Wf()
    ensures e.Wf()
  {
    if c < CHANNELS then d.(dreq := d.dreq[c := asserted]) else d
  }

  function TerminalCount(d: Dma, c: nat): (e: Dma)
    requires d.Wf() && c < CHANNELS
    ensures e.Wf()
  {
    var ch := d.channel[c];
    var e := d.(status := d.status[c := true], request := d.request[c := false]);
    if ch.AutoInit() then
      e.(channel := d.channel[c := ch.(address := ch.baseAddress, count := ch.baseCount)])
    else e.(mask := d.mask[c := true])
  }

  /** What a transfer asks of the bus. */
  datatype Op = Nothing | DeviceToMemory(channel: nat, address: word) | MemoryToDevice(address: word, channel: nat)
              | Copy(from: word, to: word)

  datatype Cycle = Cycle(ran: bool, channel: nat, address: word, wroteMemory: bool, terminalCount: bool, op: Op)

  const NO_CYCLE := Cycle(false, 0, 0, false, false, Nothing)

  function Advance(d: Dma, c: nat): (e: Dma)
    requires d.Wf() && c < CHANNELS
    ensures e.Wf()
  {
    var ch := d.channel[c];
    var e := d.(channel := d.channel[c := ch.(address := ch.NextAddress(), count := ch.NextCount())]);
    if ch.count == 0 then TerminalCount(e, c) else e
  }

  function OpOf(d: Dma, c: nat): Op
    requires d.Wf() && c < CHANNELS
  {
    var ch := d.channel[c];
    if ch.Direction() == 1 then DeviceToMemory(c, ch.address)
    else if ch.Direction() == 2 then MemoryToDevice(ch.address, c)
    else Nothing
  }

  /** One service cycle; `fetched` is the byte a memory-to-memory read returns. */
  function Transfer(d: Dma, fetched: byte): (r: (Dma, Cycle))
    requires d.Wf()
    ensures r.0.Wf()
  {
    if d.MemToMem() then
      if d.Disabled() || !d.Asking(0) then (d, NO_CYCLE)
      else
        var source, dest := d.channel[0], d.channel[1];
        var chans := d.channel[0 := if d.HoldSource() then source else source.(address := source.NextAddress())];
        var e := Advance(d.(channel := chans, temporary := fetched), 1);
        var expired := dest.count == 0;
        (if expired then e.(request := e.request[0 := false]) else e,
         Cycle(true, 1, dest.address, true, expired, Copy(source.address, dest.address)))
    else
      var p := Pending(d);
      if p < 0 || d.channel[p].Cascade() || d.channel[p].Direction() == 3 then (d, NO_CYCLE)
      else
        var ch := d.channel[p];
        (Advance(d, p), Cycle(true, p, ch.address, ch.Direction() == 1, ch.count == 0, OpOf(d, p)))
  }

  // ----- a whole block -----------------------------------------------------------

  /** `n` transfers in a row. */
  function Transfers(d: Dma, n: nat): (e: Dma)
    requires d.Wf()
    ensures e.Wf()
  {
    if n == 0 then d else Transfer(Transfers(d, n - 1), 0).0
  }

  /** Channel `c` is the one being served, by an ordinary transfer. */
  predicate Serving(d: Dma, c: nat) {
    && d.Wf() && c < CHANNELS && !d.MemToMem()
    && Pending(d) == c && !d.channel[c].Cascade() && d.channel[c].Direction() != 3
  }

  /** The address after `k` steps in the channel's direction. */
  function Stepped(ch: Channel, k: nat): word {
    if ch.Decrement() then (ch.address as int - k) % 0x1_0000 else (ch.address as int + k) % 0x1_0000
  }

  /** One transfer inside a block. */
  lemma MidTransfer(d: Dma, c: nat)
    requires Serving(d, c) && d.channel[c].count > 0
    ensures var ch := d.channel[c];
            && Transfer(d, 0).0 ==
               d.(channel := d.channel[c := ch.(address := ch.NextAddress(), count := ch.count - 1)])
            && !Transfer(d, 0).1.terminalCount
    ensures Serving(Transfer(d, 0).0, c)
  {
  }

  /** Up to the programmed count, nothing but the address and the count moves, and
      the channel goes on being the one served. */
  lemma {:induction false} MidBlock(d: Dma, c: nat, k: nat)
    requires Serving(d, c) && k <= d.channel[c].count
    ensures Serving(Transfers(d, k), c)
    ensures Transfers(d, k) == d.(channel := d.channel[c := After(d.channel[c], k)])
  {
    hide Transfer, Pending, Stepped;
    if k == 0 {
      AfterStep(d.channel[c], 0);
      assert d.channel[c := d.channel[c]] == d.channel;
    } else {
      MidBlock(d, c, k - 1);
      MidTransfer(Transfers(d, k - 1), c);
      AfterStep(d.channel[c], k);
    }
  }

  lemma AfterStep(ch: Channel, k: nat)
    requires k <= ch.count
    ensures After(ch, 0) == ch
    ensures k > 0 ==> var b := After(ch, k - 1); After(ch, k) == b.(address := b.NextAddress(), count := b.count - 1)
  {
    NextWord(ch.address as int - k);
    NextWord(ch.address as int + k - 1);
  }

  /** Counting a word up and down through its wrap. */
  lemma NextWord(n: int)
    ensures (n + 1) % 0x1_0000 == if n % 0x1_0000 == 0xFFFF then 0 else n % 0x1_0000 + 1
    ensures n % 0x1_0000 == if (n + 1) % 0x1_0000 == 0 then 0xFFFF else (n + 1) % 0x1_0000 - 1
  {
  }

  /** The channel's registers `k` transfers into its block. */
  function After(ch: Channel, k: nat): Channel
    requires k <= ch.count
  {
    ch.(address := Stepped(ch, k), count := ch.count - k)
  }

  /** The channel after its block: reloaded, or run out. */
  function Ended(ch: Channel): Channel {
    if ch.AutoInit() then ch.(address := ch.baseAddress, count := ch.baseCount)
    else ch.(address := Stepped(ch, ch.count as nat + 1), count := 0xFFFF)
  }

  /** The transfer that ends a block. */
  lemma LastTransfer(d: Dma, c: nat)
    requires Serving(d, c) && d.channel[c].count == 0
    ensures var ch, e := d.channel[c], Transfer(d, 0).0;
            && Transfer(d, 0).1.terminalCount
            && e.status == d.status[c := true] && e.request == d.request[c := false]
            && e.channel == d.channel[c := if ch.AutoInit() then ch.(address := ch.baseAddress, count := ch.baseCount)
                                           else ch.(address := ch.NextAddress(), count := 0xFFFF)]
            && e.mask == (if ch.AutoInit() then d.mask else d.mask[c := true])
            && (!ch.AutoInit() ==> Pending(e) != c)
  {
  }

  /** "The number of transfers is one more than the number programmed": the block
      ends on transfer count + 1 and on no earlier one, and afterwards the channel
      has either reloaded itself or masked itself off and asks no more. */
  lemma BlockEnds(d: Dma, c: nat)
    requires Serving(d, c)
    ensures var n := d.channel[c].count as nat;
            var e := Transfers(d, n + 1);
            && Transfer(Transfers(d, n), 0).1.terminalCount
            && (forall k :: 0 <= k < n ==> !Transfer(Transfers(d, k), 0).1.terminalCount)
            && e.status == d.status[c := true] && e.request == d.request[c := false]
            && e.channel == d.channel[c := Ended(d.channel[c])]
            && e.mask == (if d.channel[c].AutoInit() then d.mask else d.mask[c := true])
            && (!d.channel[c].AutoInit() ==> Pending(e) != c)
  {
    hide Transfer, Pending, Stepped;
    var n := d.channel[c].count as nat;
    MidBlock(d, c, n);
    LastTransfer(Transfers(d, n), c);
    LastAddress(d.channel[c]);
    forall k | 0 <= k < n
      ensures !Transfer(Transfers(d, k), 0).1.terminalCount
    {
      MidBlock(d, c, k);
      MidTransfer(Transfers(d, k), c);
    }
  }

  lemma LastAddress(ch: Channel)
    ensures After(ch, ch.count).NextAddress() == Stepped(ch, ch.count as nat + 1)
  {
  }

  /** What the `k`-th transfer of a block should be: at the `k`-th address, in the
      channel's direction, and the last to report terminal count. */
  function BlockCycle(ch: Channel, c: nat, k: nat): Cycle {
    var at := Stepped(ch, k);
    var op := if ch.Direction() == 1 then DeviceToMemory(c, at)
              else if ch.Direction() == 2 then MemoryToDevice(at, c)
              else Nothing;
    Cycle(true, c, at, ch.Direction() == 1, k == ch.count as nat, op)
  }

  /** And it is, whichever way the channel counts and whichever way the bytes go. */
  lemma BlockCycles(d: Dma, c: nat, k: nat)
    requires Serving(d, c) && k <= d.channel[c].count
    ensures Transfer(Transfers(d, k), 0).1 == BlockCycle(d.channel[c], c, k)
  {
    hide Transfer, Pending, Stepped;
    MidBlock(d, c, k);
    ServedCycle(Transfers(d, k), c);
  }

  lemma ServedCycle(d: Dma, c: nat)
    requires Serving(d, c)
    ensures var ch := d.channel[c];
            Transfer(d, 0).1 == Cycle(true, c, ch.address, ch.Direction() == 1, ch.count == 0, OpOf(d, c))
  {
  }

  /** No address of a block comes round twice, in any of its 65536 transfers at most. */
  lemma BlockAddresses(d: Dma, c: nat, j: nat, k: nat)
    requires Serving(d, c) && j < k <= d.channel[c].count
    ensures Transfer(Transfers(d, k), 0).1.address == Stepped(d.channel[c], k)
    ensures Transfer(Transfers(d, j), 0).1.address != Transfer(Transfers(d, k), 0).1.address
  {
    hide Transfer, Pending, Stepped;
    BlockCycles(d, c, j);
    BlockCycles(d, c, k);
    SteppedInjective(d.channel[c], j, k);
  }

  lemma SteppedInjective(ch: Channel, j: nat, k: nat)
    requires j < k < 0x1_0000
    ensures Stepped(ch, j) != Stepped(ch, k)
  {
  }

  // ----- a memory-to-memory block ----------------------------------------------------

  /** Channel 0 asking of an enabled part in memory-to-memory mode. */
  predicate Copying(d: Dma) {
    d.Wf() && d.MemToMem() && !d.Disabled() && d.Asking(0)
  }

  /** A run of cycles, with the byte each read brings. */
  function Copies(d: Dma, fetched: seq<byte>): (e: Dma)
    requires d.Wf()
    ensures e.Wf()
  {
    if fetched == [] then d
    else Transfer(Copies(d, fetched[..|fetched| - 1]), fetched[|fetched| - 1]).0
  }

  /** The source stands still when the part is told to hold it. */
  function SourceAfter(d: Dma, k: nat): Channel
    requires d.Wf()
  {
    if d.HoldSource() then d.channel[0] else d.channel[0].(address := Stepped(d.channel[0], k))
  }

  function CopyAfter(d: Dma, fetched: seq<byte>): (e: Dma)
    requires d.Wf() && |fetched| <= d.channel[1].count
    ensures e.Wf()
  {
    var k := |fetched|;
    d.(channel := d.channel[0 := SourceAfter(d, k)][1 := After(d.channel[1], k)],
       temporary := if k == 0 then d.temporary else fetched[k - 1])
  }

  lemma SourceStep(d: Dma, k: nat)
    requires d.Wf()
    ensures SourceAfter(d, 0) == d.channel[0]
    ensures k > 0 ==> var s := SourceAfter(d, k - 1);
            SourceAfter(d, k) == if d.HoldSource() then s else s.(address := s.NextAddress())
  {
    NextWord(d.channel[0].address as int - k);
    NextWord(d.channel[0].address as int + k - 1);
  }

  lemma MidCopy(d: Dma, fetched: seq<byte>, v: byte)
    requires Copying(d) && |fetched| < d.channel[1].count as nat
    ensures Transfer(CopyAfter(d, fetched), v).0 == CopyAfter(d, fetched + [v])
  {
    hide Stepped;
    SourceStep(d, |fetched| + 1);
    AfterStep(d.channel[1], |fetched| + 1);
  }

  lemma {:induction false} CopyProgress(d: Dma, fetched: seq<byte>)
    requires Copying(d) && |fetched| <= d.channel[1].count
    ensures Copies(d, fetched) == CopyAfter(d, fetched) && Copying(Copies(d, fetched))
  {
    hide Transfer, Stepped;
    if fetched == [] {
      SourceStep(d, 0);
      AfterStep(d.channel[1], 0);
      assert d.channel[0 := d.channel[0]][1 := d.channel[1]] == d.channel;
    } else {
      var n := |fetched| - 1;
      CopyProgress(d, fetched[..n]);
      MidCopy(d, fetched[..n], fetched[n]);
      assert fetched[..n] + [fetched[n]] == fetched;
    }
  }

  function CopyCycle(d: Dma, k: nat): Cycle
    requires d.Wf()
  {
    var to := Stepped(d.channel[1], k);
    Cycle(true, 1, to, true, k == d.channel[1].count as nat, Copy(SourceAfter(d, k).address, to))
  }

  /** Each cycle copies from the `k`-th source to the `k`-th destination, and channel 1's
      last is the one that reports terminal count. */
  lemma CopyCycles(d: Dma, fetched: seq<byte>, v: byte)
    requires Copying(d) && |fetched| <= d.channel[1].count
    ensures Transfer(Copies(d, fetched), v).1 == CopyCycle(d, |fetched|)
  {
    CopyProgress(d, fetched);
    hide Stepped, SourceAfter, Copies, Advance;
  }

  /** The block stops: after channel 1's count + 1 copies both software requests are
      down, channel 1 has reloaded or masked itself, and another cycle runs only if
      channel 0's own pin asks for it. */
  lemma CopyEnds(d: Dma, fetched: seq<byte>, v: byte)
    requires Copying(d) && |fetched| == d.channel[1].count as nat + 1
    ensures var e, ch := Copies(d, fetched), d.channel[1];
            && e.status == d.status[1 := true] && e.request == d.request[0 := false][1 := false]
            && e.channel[1] == Ended(ch) && e.mask == (if ch.AutoInit() then d.mask else d.mask[1 := true])
            && e.temporary == fetched[|fetched| - 1]
            && (Transfer(e, v).1.ran <==> d.dreq[0] && !d.mask[0])
  {
    var n := |fetched| - 1;
    CopyProgress(d, fetched[..n]);
    LastCopy(CopyAfter(d, fetched[..n]), fetched[n], v);
    LastAddress(d.channel[1]);
    hide Transfer, Stepped, SourceAfter;
  }

  lemma LastCopy(d: Dma, moved: byte, v: byte)
    requires Copying(d) && d.channel[1].count == 0
    ensures var e, ch := Transfer(d, moved).0, d.channel[1];
            && e.status == d.status[1 := true] && e.request == d.request[0 := false][1 := false]
            && e.channel[1] == (if ch.AutoInit() then ch.(address := ch.baseAddress, count := ch.baseCount)
                                else ch.(address := ch.NextAddress(), count := 0xFFFF))
            && e.mask == (if ch.AutoInit() then d.mask else d.mask[1 := true]) && e.temporary == moved
            && (Transfer(e, v).1.ran <==> d.dreq[0] && !d.mask[0])
  {
    assert d.request[1 := false][0 := false] == d.request[0 := false][1 := false];
  }

  // ----- programming ---------------------------------------------------------------

  function Read(d: Dma, reg: nat): (r: (Dma, byte))
    requires d.Wf() && reg < 16
    ensures r.0.Wf()
  {
    if reg < 8 then
      var ch := d.channel[reg / 2];
      var v := if reg % 2 == 1 then ch.count else ch.address;
      (d.(highByte := !d.highByte), if d.highByte then High(v) else Low(v))
    else if reg == 8 then (d.(status := NO_BITS), StatusByte(d))
    else if reg == 13 then (d, d.temporary)
    else (d, 0)
  }

  function StatusByte(d: Dma): byte
    requires d.Wf()
  {
    (if d.status[0] then 1 else 0) + (if d.status[1] then 2 else 0) +
    (if d.status[2] then 4 else 0) + (if d.status[3] then 8 else 0) +
    (if d.Asking(0) then 16 else 0) + (if d.Asking(1) then 32 else 0) +
    (if d.Asking(2) then 64 else 0) + (if d.Asking(3) then 128 else 0)
  }

  function WriteHalf(held: word, highByte: bool, value: byte): word {
    if highByte then Join(value, Low(held)) else Join(High(held), value)
  }

  function Write(d: Dma, reg: nat, value: byte): (e: Dma)
    requires d.Wf() && reg < 16
    ensures e.Wf()
  {
    var bit := value % 4;
    var up := value / 4 % 2 == 1;
    if reg < 8 then
      var ch := d.channel[reg / 2];
      var v := WriteHalf(if reg % 2 == 1 then ch.baseCount else ch.baseAddress, d.highByte, value);
      var now := if reg % 2 == 1 then ch.(baseCount := v, count := v) else ch.(baseAddress := v, address := v);
      d.(channel := d.channel[reg / 2 := now], highByte := !d.highByte)
    else match reg
      case 8 => d.(command := value)
      case 9 => d.(request := d.request[bit := up])
      case 10 => d.(mask := d.mask[bit := up])
      case 11 => d.(channel := d.channel[bit := d.channel[bit].(mode := value)])
      case 12 => d.(highByte := false)
      case 13 => RESET
      case 14 => d.(mask := NO_BITS)
      case _ => d.(mask := [value % 2 == 1, value / 2 % 2 == 1, value / 4 % 2 == 1, value / 8 % 2 == 1])
  }

  /** Clearing the flip-flop and writing low then high loads base and current
      together, leaves the other register of the channel and the other channels
      alone, and leaves the flip-flop ready for the next pair. */
  lemma ProgramPair(d: Dma, reg: nat, v: word)
    requires d.Wf() && reg < 8
    ensures var e := Write(Write(Write(d, 12, 0), reg, Low(v)), reg, High(v));
            var ch := d.channel[reg / 2];
            e == d.(highByte := false,
                    channel := d.channel[reg / 2 := if reg % 2 == 1 then ch.(baseCount := v, count := v)
                                                    else ch.(baseAddress := v, address := v)])
  {
    hide High, Low, Join;
    var ch := d.channel[reg / 2];
    Halves(v);
    Relane(High(if reg % 2 == 1 then ch.baseCount else ch.baseAddress), Low(v));
  }

  /** And the pair reads back in the same order. */
  lemma ReadPair(d: Dma, reg: nat)
    requires d.Wf() && reg < 8 && !d.highByte
    ensures var first := Read(d, reg);
            var second := Read(first.0, reg);
            && Join(second.1, first.1) ==
               (if reg % 2 == 1 then d.channel[reg / 2].count else d.channel[reg / 2].address)
            && second.0 == d
  {
  }

  /** The status register: terminal counts in bits 0 to 3, standing requests in 4 to 7; a
      read takes the terminal counts down and touches nothing else. */
  lemma StatusRead(d: Dma, c: nat)
    requires d.Wf() && c < CHANNELS
    ensures var r := Read(d, 8);
            (BitSet(r.1, c) <==> d.status[c]) && (BitSet(r.1, 4 + c) <==> d.Asking(c))
            && r.0 == d.(status := NO_BITS)
    ensures Read(d, 13) == (d, d.temporary)
  {
    var bits := d.status + seq(CHANNELS, i requires 0 <= i < CHANNELS => d.Asking(i));
    assert StatusByte(d) == ByteOf(bits);
    ByteBit(bits, c);
    ByteBit(bits, 4 + c);
    hide ByteOf, BitSet;
  }

  /** The command registers. A request or mask bit is set or cleared by channel and bit 2;
      the whole mask is written bit by bit, or cleared; a mode goes to the channel it
      names; anything written to the flip-flop's address clears it; and a master clear is
      a reset. */
  lemma CommandWrites(d: Dma, v: byte, c: nat, up: bool, rest: nat)
    requires d.Wf() && c < CHANNELS && v as int == c + (if up then 4 else 0) + 8 * rest
    ensures Write(d, 8, v) == d.(command := v) && Write(d, 12, v) == d.(highByte := false) && Write(d, 13, v) == RESET
    ensures Write(d, 9, v) == d.(request := d.request[c := up]) && Write(d, 10, v) == d.(mask := d.mask[c := up])
    ensures Write(d, 11, v) == d.(channel := d.channel[c := d.channel[c].(mode := v)])
    ensures Write(d, 14, v) == d.(mask := NO_BITS)
  {
  }

  lemma MaskWrite(d: Dma, v: byte, c: nat)
    requires d.Wf() && c < CHANNELS
    ensures var e := Write(d, 15, v); e == d.(mask := e.mask) && (e.mask[c] <==> BitSet(v, c))
  {
    assert Pow2(0) == 1 && Pow2(1) == 2 && Pow2(2) == 4 && Pow2(3) == 8;
  }

  /** The driver's sequence on channel `c`: address, count, mode, unmask; then the
      device raises its line. */
  function Armed(d: Dma, c: nat, address: word, count: word, mode: byte): (e: Dma)
    requires d.Wf() && c < CHANNELS
    ensures e.Wf()
  {
    SetPin(Write(Write(WritePair(WritePair(d, 2 * c, address), 2 * c + 1, count), 11, mode), 10, c), c, true)
  }

  /** A mode byte for channel `c` that moves bytes, in any mode but cascade, in any
      direction but the illegal one, counting either way, reloading or not. */
  predicate WorkingMode(mode: byte, c: nat) {
    mode % 4 == c && mode / 64 != 3 && mode / 4 % 4 != 3
  }

  /** The fields of a mode byte: channel, direction, reload, the sense of counting and the
      kind of service; of a command byte, memory to memory, the held source and the
      part's disable. */
  lemma ModeFields(ch: Channel, c: nat, direction: nat, reload: bool, down: bool, kind: nat)
    requires c < 4 && direction < 4 && kind < 4
    requires ch.mode as int ==
             c + 4 * direction + (if reload then 0x10 else 0) + (if down then 0x20 else 0) + 0x40 * kind
    ensures ch.mode % 4 == c && ch.Direction() == direction && (ch.AutoInit() <==> reload)
    ensures (ch.Cascade() <==> kind == 3) && (ch.Block() <==> kind == 2)
    ensures ch.NextAddress() as int == (ch.address as int + if down then -1 else 1) % 0x1_0000
  {
    var r, s := if reload then 1 else 0, if down then 1 else 0;
    Division(ch.mode, 4, direction + 4 * r + 8 * s + 16 * kind, c);
    Division(ch.mode / 4, 4, r + 2 * s + 4 * kind, direction);
    Division(ch.mode, 16, r + 2 * s + 4 * kind, c + 4 * direction);
    Division(ch.mode, 32, s + 2 * kind, c + 4 * direction + 16 * r);
    Division(ch.mode, 64, kind, c + 4 * direction + 16 * r + 32 * s);
  }

  lemma CommandFields(d: Dma, copy: bool, hold: bool, off: bool, rest: nat)
    requires d.command as int == (if copy then 1 else 0) + (if hold then 2 else 0) + (if off then 4 else 0) + 8 * rest
    ensures (d.MemToMem() <==> copy) && (d.HoldSource() <==> hold) && (d.Disabled() <==> off)
  {
  }

  /** What lets a channel be served at all: the part enabled, not copying, and no channel
      of higher priority asking. */
  predicate Clear(d: Dma, c: nat)
    requires d.Wf() && c < CHANNELS
  {
    !d.Disabled() && !d.MemToMem() && forall i :: 0 <= i < c ==> !d.Asking(i)
  }

  /** The registers as programmed, whatever they held. */
  lemma ArmedHolds(d: Dma, c: nat, address: word, count: word, mode: byte)
    requires d.Wf() && c < CHANNELS && mode % 4 == c
    ensures var e, ch := Armed(d, c, address, count, mode), Channel(address, count, address, count, mode);
            e == d.(highByte := false, channel := d.channel[c := ch], mask := d.mask[c := false],
                dreq := d.dreq[c := true])
  {
    ProgramPair(d, 2 * c, address);
    var a := WritePair(d, 2 * c, address);
    ProgramPair(a, 2 * c + 1, count);
    var b := WritePair(a, 2 * c + 1, count);
    assert b.channel[c] == Channel(address, count, address, count, d.channel[c].mode);
    assert b == d.(highByte := false, channel := d.channel[c := b.channel[c]]);
    Unmasked(d, b, c, mode);
  }

  lemma Unmasked(d: Dma, b: Dma, c: nat, mode: byte)
    requires d.Wf() && c < CHANNELS && mode % 4 == c
    requires b.Wf() && b == d.(highByte := false, channel := d.channel[c := b.channel[c]])
    ensures SetPin(Write(Write(b, 11, mode), 10, c), c, true)
         == d.(highByte := false, channel := d.channel[c := b.channel[c].(mode := mode)],
               mask := d.mask[c := false], dreq := d.dreq[c := true])
  {
    assert b.channel[c := b.channel[c].(mode := mode)] == d.channel[c := b.channel[c].(mode := mode)];
  }

  /** The sequence leaves the channel selected if and only if nothing stands in its way. */
  lemma ArmedServesIff(d: Dma, c: nat, address: word, count: word, mode: byte)
    requires d.Wf() && c < CHANNELS && WorkingMode(mode, c)
    ensures Serving(Armed(d, c, address, count, mode), c) <==> Clear(d, c)
  {
    ArmedHolds(d, c, address, count, mode);
    var e := Armed(d, c, address, count, mode);
    assert e.Asking(c) && forall i :: 0 <= i < c ==> e.Asking(i) == d.Asking(i);
    hide Armed;
  }

  /** `count` + 1 transfers, each at its address and in its direction, the last of them
      the only one to report terminal count. */
  predicate MovesBlock(d: Dma, c: nat, ch: Channel)
    requires d.Wf()
  {
    forall k: nat :: k <= ch.count as nat ==> Transfer(Transfers(d, k), 0).1 == BlockCycle(ch, c, k)
  }

  /** End to end, for every working mode: the next count + 1 transfers are the
      programmed block's if and only if nothing stands in the channel's way. */
  lemma ProgrammedBlockIff(d: Dma, c: nat, address: word, count: word, mode: byte)
    requires d.Wf() && c < CHANNELS && WorkingMode(mode, c)
    ensures MovesBlock(Armed(d, c, address, count, mode), c, Channel(address, count, address, count, mode)) <==>
            Clear(d, c)
  {
    ArmedServesIff(d, c, address, count, mode);
    ArmedHolds(d, c, address, count, mode);
    var e, ch := Armed(d, c, address, count, mode), Channel(address, count, address, count, mode);
    hide Armed, BlockCycle, Clear;
    if Serving(e, c) {
      forall k: nat | k <= count as nat
        ensures Transfer(Transfers(e, k), 0).1 == BlockCycle(ch, c, k)
      {
        BlockCycles(e, c, k);
      }
    } else {
      assert Transfers(e, 0) == e;
      NotServed(e, c);
    }
  }

  /** A channel not served has no cycle of its own. */
  lemma NotServed(d: Dma, c: nat)
    requires d.Wf() && c < CHANNELS && !Serving(d, c) && d.channel[c].Direction() != 3 && !d.channel[c].Cascade()
    ensures Transfer(d, 0).1 != BlockCycle(d.channel[c], c, 0)
  {
  }

  function WritePair(d: Dma, reg: nat, v: word): (e: Dma)
    requires d.Wf() && reg < 8
    ensures e.Wf()
  {
    Write(Write(Write(d, 12, 0), reg, Low(v)), reg, High(v))
  }

  // ----- the object ----------------------------------------------------------------

  /** The part as the emulator holds it. */
  class I8237 {
    var channel: seq<Channel>
    var command: byte
    var status: seq<bool>
    var request: seq<bool>
    var mask: seq<bool>
    var temporary: byte
    var highByte: bool
    var dreq: seq<bool>

    function View(): Dma
      reads this
    {
      Dma(channel, command, status, request, mask, temporary, highByte, dreq)
    }

    constructor ()
      ensures View() == RESET
    {
      channel := RESET.channel;
      command, status, request, mask := 0, NO_BITS, NO_BITS, ALL_BITS;
      temporary, highByte, dreq := 0, false, NO_BITS;
    }

    method SetRequestPin(c: nat, asserted: bool)
      requires View().Wf()
      modifies `dreq
      ensures View() == SetPin(old(View()), c, asserted)
    {
      if c >= CHANNELS {
        return;
      }
      dreq := dreq[c := asserted];
    }

    method ServicePending() returns (p: int)
      requires View().Wf()
      ensures p == Pending(View())
    {
      if command / 4 % 2 == 1 {
        return -1;
      }
      var i := 0;
      while i < CHANNELS
        invariant 0 <= i <= CHANNELS
        invariant forall c :: 0 <= c < i ==> !View().Asking(c)
      {
        if (dreq[i] && !mask[i]) || (request[i] && channel[i].Block()) {
          return i;
        }
        i := i + 1;
      }
      return -1;
    }

    method ReachTerminalCount(c: nat)
      requires View().Wf() && c < CHANNELS
      modifies this
      ensures View() == TerminalCount(old(View()), c)
    {
      status := status[c := true];
      request := request[c := false];
      var ch := channel[c];
      if ch.AutoInit() {
        channel := channel[c := ch.(address := ch.baseAddress, count := ch.baseCount)];
      } else {
        mask := mask[c := true];
      }
    }

    method RunTransfer(fetched: byte) returns (cycle: Cycle)
      requires View().Wf()
      modifies this
      ensures (View(), cycle) == Transfer(old(View()), fetched)
    {
      if command % 2 == 1 {
        cycle := MemoryToMemory(fetched);
        return;
      }
      var p := ServicePending();
      if p < 0 || channel[p].Cascade() || channel[p].Direction() == 3 {
        return NO_CYCLE;
      }
      var ch := channel[p];
      var op := OpOf(View(), p);
      channel := channel[p := ch.(address := ch.NextAddress(), count := ch.NextCount())];
      if ch.count == 0 {
        ReachTerminalCount(p);
      }
      return Cycle(true, p, ch.address, ch.Direction() == 1, ch.count == 0, op);
    }

    method MemoryToMemory(fetched: byte) returns (cycle: Cycle)
      requires View().Wf() && View().MemToMem()
      modifies this
      ensures (View(), cycle) == Transfer(old(View()), fetched)
    {
      if command / 4 % 2 == 1 || !View().Asking(0) {
        return NO_CYCLE;
      }
      var source, dest := channel[0], channel[1];
      temporary := fetched;
      assert channel[0 := source] == channel;
      if command / 2 % 2 == 0 {
        channel := channel[0 := source.(address := source.NextAddress())];
      }
      channel := channel[1 := dest.(address := dest.NextAddress(), count := dest.NextCount())];
      if dest.count == 0 {
        ReachTerminalCount(1);
        request := request[0 := false];
      }
      return Cycle(true, 1, dest.address, true, dest.count == 0, Copy(source.address, dest.address));
    }
  }
}

/**
 * The core board's register file: latched conditions, acknowledge on write,
 * selective clears, byte lanes, and the posted diagnostic codes.
 */
module CoreRegisters {
  import opened Arithmetic
  import opened Words

  datatype Id = CpuStatus | CpuControl | CacheControl | LatchPage | MasterRequest | TaskAlias | MemoryPresent
              | SelectiveClear | Undecoded

  const POSTED_CODES: nat := 32
  const NORMAL_MODE: nat := 0
  const FP_TRAP: nat := 2
  const BUS_ERROR: nat := 8
  const ALWAYS_SET: nat := 15

  /** `status[i]` is bit i. */
  datatype Regs = Regs(status: seq<bool>, control: word, cacheControl: byte, latchPage: word,
                       masterRequest: byte, taskAlias: byte, memoryPresent: byte,
                       ds5500: bool, hsi: bool, interruptPending: bool,
                       posted: seq<byte>, postedTotal: nat)
  {
    predicate Wf() { |status| == 16 }
  }

  function Decode(address: long): Id {
    match address / 0x100
    case 0x100 => CpuStatus
    case 0x101 => CpuControl
    case 0x102 => CacheControl
    case 0x103 => TaskAlias
    case 0x113 => LatchPage
    case 0x114 => MemoryPresent
    case 0x116 => MasterRequest
    case 0x164 => SelectiveClear
    case _ => Undecoded
  }

  predicate IsByteRegister(id: Id) {
    id == CacheControl || id == MasterRequest || id == TaskAlias || id == MemoryPresent
  }

  function StatusWord(s: seq<bool>): word
    requires |s| == 16
  {
    Join(ByteOf(s[8..]), ByteOf(s[..8]))
  }

  function CacheByte(r: Regs): byte
    requires r.Wf()
  {
    if r.ds5500 then 0xE6 + Bit(!r.hsi, 0x08) + Bit(r.status[BUS_ERROR], 0x01) + Bit(r.interruptPending, 0x10)
    else Bit(r.cacheControl >= 0x80, 0x80) + 0x6F + Bit(r.interruptPending, 0x10)
  }

  function ValueOf(r: Regs, id: Id): word
    requires r.Wf()
  {
    match id
    case CpuStatus => StatusWord(r.status[ALWAYS_SET := true])
    case CpuControl => r.control
    case CacheControl => CacheByte(r)
    case LatchPage => r.latchPage
    case MasterRequest => r.masterRequest
    case TaskAlias => r.taskAlias
    case MemoryPresent => r.memoryPresent
    case SelectiveClear => 0xFFFF
    case Undecoded => 0
  }

  function Read16(r: Regs, address: long): word
    requires r.Wf()
  {
    var id := Decode(address);
    if id == CacheControl then Join(Low(ValueOf(r, id)), Low(ValueOf(r, id))) else ValueOf(r, id)
  }

  function Read8(r: Regs, address: long): byte
    requires r.Wf()
  {
    var id, v := Decode(address), ValueOf(r, Decode(address));
    if IsByteRegister(id) || address % 2 == 1 then Low(v) else High(v)
  }

  // ----- changes ------------------------------------------------------------------

  /** Which status bits a selective clear takes down. */
  predicate Clears(offset: nat, bit: nat) {
    match offset
    case 0 => bit == FP_TRAP || 4 <= bit <= 8
    case 4 => bit == FP_TRAP
    case 6 => 4 <= bit <= 7
    case 8 => bit == BUS_ERROR
    case _ => false
  }

  function ClearStatus(s: seq<bool>, offset: nat): (t: seq<bool>)
    requires |s| == 16
    ensures |t| == 16
  {
    seq(16, i requires 0 <= i < 16 => s[i] && !Clears(offset, i))
  }

  /** A write carries nothing and acknowledges: the switch stays, bit 15 is set. */
  function Acknowledge(s: seq<bool>): (t: seq<bool>)
    requires |s| == 16
    ensures |t| == 16
  {
    seq(16, i requires 0 <= i < 16 => (i == NORMAL_MODE && s[i]) || i == ALWAYS_SET)
  }

  function PostCode(r: Regs, code: byte): Regs {
    var t := r.(postedTotal := r.postedTotal + 1);
    if |r.posted| > 0 && r.posted[|r.posted| - 1] == code then t
    else if |r.posted| >= POSTED_CODES then t
    else t.(posted := r.posted + [code])
  }

  function Store(r: Regs, id: Id, v: word): (t: Regs)
    requires r.Wf()
    ensures t.Wf()
  {
    match id
    case CpuStatus => r.(status := Acknowledge(r.status))
    case CpuControl => PostCode(r.(control := v), High(v))
    case CacheControl => if r.ds5500 then r else r.(cacheControl := if Low(v) >= 0x80 then 0x80 else 0)
    case MasterRequest => r.(masterRequest := Low(v))
    case TaskAlias => r.(taskAlias := Low(v))
    case _ => r
  }

  function Write16(r: Regs, address: long, v: word): (t: Regs)
    requires r.Wf()
    ensures t.Wf()
  {
    var id := Decode(address);
    if id == SelectiveClear then r.(status := ClearStatus(r.status, address % 0x100)) else Store(r, id, v)
  }

  function Write8(r: Regs, address: long, v: byte): (t: Regs)
    requires r.Wf()
    ensures t.Wf()
  {
    var id := Decode(address);
    if id == SelectiveClear then r.(status := ClearStatus(r.status, address % 0x100))
    else if IsByteRegister(id) then Store(r, id, v)
    else
      var held := ValueOf(r, id);
      Store(r, id, if address % 2 == 1 then Join(High(held), v) else Join(v, Low(held)))
  }

  // ----- lanes --------------------------------------------------------------------

  /** A word cycle and the two byte cycles the board makes of it leave the same
      machine; only the tally of writes to the LED register tells them apart. */
  lemma WordWriteIsTwoBytes(r: Regs, address: long, v: word)
    requires r.Wf() && address % 2 == 0 && address + 1 < 0x1_0000_0000
    ensures var bytes := Write8(Write8(r, address, High(v)), address + 1, Low(v));
            bytes.(postedTotal := Write16(r, address, v).postedTotal) == Write16(r, address, v)
  {
    hide StatusWord, CacheByte, Acknowledge, ClearStatus, PostCode, Decode, High, Low, Join;
    NextByte(address);
    Halves(v);
    LowLow(v);
    match Decode(address)
    case SelectiveClear => ClearTwice(r.status, address % 0x100);
    case CpuStatus => AcknowledgeTwice(r.status);
    case CpuControl =>
      Relane(High(v), Low(r.control));
      PostTwice(r, v);
    case _ =>
  }

  lemma NextByte(address: long)
    requires address % 2 == 0 && address + 1 < 0x1_0000_0000
    ensures Decode(address + 1) == Decode(address)
    ensures (address + 1) % 2 == 1 && (address + 1) % 0x100 == address % 0x100 + 1
  {
    var q, r := address as nat / 0x100, address as nat % 0x100;
    assert address as nat == 0x100 * q + r && r % 2 == 0;
    Division(address + 1, 0x100, q, r + 1);
    assert (address + 1) / 0x100 == address / 0x100;
    hide *;
  }

  /** The odd byte of a pair names no location to clear. */
  lemma ClearTwice(s: seq<bool>, offset: nat)
    requires |s| == 16 && offset % 2 == 0
    ensures ClearStatus(ClearStatus(s, offset), offset + 1) == ClearStatus(s, offset)
  {
  }

  lemma AcknowledgeTwice(s: seq<bool>)
    requires |s| == 16
    ensures Acknowledge(Acknowledge(s)) == Acknowledge(s)
  {
  }

  lemma PostTwice(r: Regs, v: word)
    ensures var first := PostCode(r.(control := Join(High(v), Low(r.control))), High(v));
            && first.control == Join(High(v), Low(r.control))
            && PostCode(first.(control := v), High(v)).(postedTotal := PostCode(r.(control := v), High(v)).postedTotal)
               == PostCode(r.(control := v), High(v))
  {
  }

  /** Reading is not so even: the word read agrees with its two byte reads except at
      the three byte registers that are not doubled, where it does so exactly when
      the register is zero. */
  lemma WordReadIffTwoBytes(r: Regs, address: long)
    requires r.Wf() && address % 2 == 0 && address + 1 < 0x1_0000_0000
    ensures Read16(r, address) == Join(Read8(r, address), Read8(r, address + 1)) <==>
            (Decode(address) in {MasterRequest, TaskAlias, MemoryPresent} ==> ValueOf(r, Decode(address)) == 0)
  {
    hide StatusWord, CacheByte, Decode, High, Low, Join;
    NextByte(address);
    var v := ValueOf(r, Decode(address));
    Halves(v);
    if Decode(address) in {MasterRequest, TaskAlias, MemoryPresent} { Doubled(v); }
  }

  lemma Doubled(v: byte)
    ensures Join(Low(v), Low(v)) == v as word <==> v == 0
  {
  }

  // ----- every history ---------------------------------------------------------------

  datatype Event =
    | Latch(bits: set<nat>)
    | Switch(normal: bool)
    | Word(address: long, v: word)
    | Byte(address: long, lane: byte)
    | Pending(level: bool)

  function Apply(r: Regs, e: Event): (t: Regs)
    requires r.Wf()
    ensures t.Wf()
  {
    match e
    case Latch(bits) => r.(status := seq(16, i requires 0 <= i < 16 => r.status[i] || i in bits))
    case Switch(normal) => r.(status := r.status[NORMAL_MODE := normal])
    case Word(a, v) => Write16(r, a, v)
    case Byte(a, v) => Write8(r, a, v)
    case Pending(level) => r.(interruptPending := level)
  }

  function After(r: Regs, events: seq<Event>): (t: Regs)
    requires r.Wf()
    ensures t.Wf()
  {
    if events == [] then r else Apply(After(r, events[..|events| - 1]), events[|events| - 1])
  }

  predicate Sets(e: Event, bit: nat) {
    e.Latch? && bit in e.bits
  }

  /** The events that take a condition down: an acknowledging write, or a selective
      clear that names it. */
  predicate TakesDown(e: Event, bit: nat) {
    (e.Word? || e.Byte?) &&
    (Decode(e.address) == CpuStatus || (Decode(e.address) == SelectiveClear && Clears(e.address % 0x100, bit)))
  }

  /** Latched at some point and not taken down since. */
  ghost predicate Standing(events: seq<Event>, bit: nat) {
    exists i :: 0 <= i < |events| && Sets(events[i], bit) && forall j :: i < j < |events| ==> !TakesDown(events[j], bit)
  }

  predicate Condition(bit: nat) { 1 <= bit <= 14 }

  /** What a bus write does to the status register, wherever it lands. */
  lemma WriteStatus(r: Regs, e: Event)
    requires r.Wf() && (e.Word? || e.Byte?)
    ensures Apply(r, e).status ==
            match Decode(e.address)
            case CpuStatus => Acknowledge(r.status)
            case SelectiveClear => ClearStatus(r.status, e.address % 0x100)
            case _ => r.status
  {
    hide ValueOf, Acknowledge, ClearStatus;
  }

  lemma StepBit(r: Regs, e: Event, bit: nat)
    requires r.Wf() && Condition(bit)
    ensures Apply(r, e).status[bit] <==> Sets(e, bit) || (r.status[bit] && !TakesDown(e, bit))
  {
    hide Write8, Write16;
    if e.Word? || e.Byte? { WriteStatus(r, e); }
  }

  lemma StandingStep(events: seq<Event>, e: Event, bit: nat)
    ensures Standing(events + [e], bit) <==> Sets(e, bit) || (Standing(events, bit) && !TakesDown(e, bit))
  {
    var all := events + [e];
    if Standing(all, bit) {
      var i :| 0 <= i < |all| && Sets(all[i], bit) && forall j :: i < j < |all| ==> !TakesDown(all[j], bit);
      if i < |events| {
        assert Sets(events[i], bit);
        assert forall j :: i < j < |events| ==> events[j] == all[j];
        assert all[|events|] == e;
      }
    }
    if Sets(e, bit) {
      assert all[|events|] == e;
    } else if Standing(events, bit) && !TakesDown(e, bit) {
      var i :| 0 <= i < |events| && Sets(events[i], bit) && forall j :: i < j < |events| ==> !TakesDown(events[j], bit);
      assert Sets(all[i], bit);
    }
  }

  /** Over every history from a machine with no conditions: a condition reads set
      exactly when it was latched and nothing has taken it down since. */
  lemma {:induction false} ConditionHistory(r: Regs, events: seq<Event>, bit: nat)
    requires r.Wf() && Condition(bit) && !r.status[bit]
    ensures After(r, events).status[bit] <==> Standing(events, bit)
  {
    if events != [] {
      var n := |events| - 1;
      ConditionHistory(r, events[..n], bit);
      StepBit(After(r, events[..n]), events[n], bit);
      StandingStep(events[..n], events[n], bit);
      assert events[..n] + [events[n]] == events;
    }
  }

  /** The last setting of the switch, when nothing latches its bit. */
  function LastSwitch(initial: bool, events: seq<Event>): bool {
    if events == [] then initial
    else if events[|events| - 1].Switch? then events[|events| - 1].normal
    else LastSwitch(initial, events[..|events| - 1])
  }

  /** Bit 0 is the switch and survives every write and clear; bit 15 never falls. */
  lemma {:induction false} SwitchHistory(r: Regs, events: seq<Event>)
    requires r.Wf()
    requires forall i :: 0 <= i < |events| ==> !Sets(events[i], NORMAL_MODE)
    ensures After(r, events).status[NORMAL_MODE] == LastSwitch(r.status[NORMAL_MODE], events)
    ensures r.status[ALWAYS_SET] ==> After(r, events).status[ALWAYS_SET]
  {
    hide Apply, Sets;
    if events != [] {
      SwitchHistory(r, events[..|events| - 1]);
      SwitchStep(After(r, events[..|events| - 1]), events[|events| - 1]);
    }
  }

  lemma SwitchStep(r: Regs, e: Event)
    requires r.Wf() && !Sets(e, NORMAL_MODE)
    ensures Apply(r, e).status[NORMAL_MODE] == (if e.Switch? then e.normal else r.status[NORMAL_MODE])
    ensures r.status[ALWAYS_SET] ==> Apply(r, e).status[ALWAYS_SET]
  {
    hide Write8, Write16;
    if e.Word? || e.Byte? { WriteStatus(r, e); }
  }

  /** The board's level 7: a parity lane standing, and the control register's enable. */
  predicate ParityInterrupt(r: Regs)
    requires r.Wf()
  {
    (r.status[4] || r.status[5] || r.status[6] || r.status[7]) && r.control % 2 == 1
  }

  lemma ParityHistory(r: Regs, events: seq<Event>)
    requires r.Wf() && forall bit :: 4 <= bit <= 7 ==> !r.status[bit]
    ensures ParityInterrupt(After(r, events)) <==>
            After(r, events).control % 2 == 1 && exists bit :: 4 <= bit <= 7 && Standing(events, bit)
  {
    hide After, Standing;
    forall bit | 4 <= bit <= 7
      ensures After(r, events).status[bit] <==> Standing(events, bit)
    {
      ConditionHistory(r, events, bit);
    }
    var s := After(r, events).status;
    assert (exists bit :: 4 <= bit <= 7 && Standing(events, bit)) <==> s[4] || s[5] || s[6] || s[7] by {
      assert Standing(events, 4) == s[4] && Standing(events, 5) == s[5] && Standing(events, 6) == s[6]
          && Standing(events, 7) == s[7];
    }
  }

  // ----- what software sees of a condition ------------------------------------------------

  /** Every condition is read in its own bit of the status register, and bit 15 always:
      by word, and by byte in the lane the bit is in. */
  lemma StatusReads(r: Regs, offset: byte, i: nat)
    requires r.Wf() && i < 16
    ensures BitSet(Read16(r, 0x10000 + offset), i) <==> i == ALWAYS_SET || r.status[i]
    ensures offset % 2 == 1 && i < 8 ==> (BitSet(Read8(r, 0x10000 + offset), i) <==> r.status[i])
    ensures offset % 2 == 0 && i >= 8 ==>
            (BitSet(Read8(r, 0x10000 + offset), i - 8) <==> i == ALWAYS_SET || r.status[i])
  {
    hide ByteOf, BitSet;
    var s := r.status[ALWAYS_SET := true];
    assert Decode(0x10000 + offset) == CpuStatus;
    Relane(ByteOf(s[8..]), ByteOf(s[..8]));
    assert Pow2(8) == 0x100;
    if i < 8 {
      ByteBit(s[..8], i);
      LowerBit(ByteOf(s[8..]), ByteOf(s[..8]), 8, i);
    } else {
      ByteBit(s[8..], i - 8);
      UpperBit(ByteOf(s[8..]), ByteOf(s[..8]), 8, i);
    }
  }

  /** What each of the four selective clears leaves standing, the parity interrupt
      included; any other address of the range clears nothing. */
  lemma SelectiveClears(r: Regs, k: byte, v: word)
    requires r.Wf()
    ensures var t, s := Write16(r, 0x16400 + k, v), r.status;
            match k
            case 0 => t.status == NoParity(s)[FP_TRAP := false][BUS_ERROR := false] && !ParityInterrupt(t)
            case 4 => t.status == s[FP_TRAP := false]
            case 6 => t.status == NoParity(s) && !ParityInterrupt(t)
            case 8 => t.status == s[BUS_ERROR := false]
            case _ => t.status == s
  {
    assert Decode(0x16400 + k) == SelectiveClear;
    WriteStatus(r, Word(0x16400 + k, v));
    hide Write16;
    assert ClearStatus(r.status, 6) == NoParity(r.status);
    assert ClearStatus(r.status, 4) == r.status[FP_TRAP := false];
    assert ClearStatus(r.status, 8) == r.status[BUS_ERROR := false];
    assert ClearStatus(r.status, 0) == NoParity(r.status)[FP_TRAP := false][BUS_ERROR := false];
    if k !in [0, 4, 6, 8] { assert ClearStatus(r.status, k) == r.status; }
    hide ClearStatus;
  }

  function NoParity(s: seq<bool>): seq<bool>
    requires |s| == 16
  {
    s[4 := false][5 := false][6 := false][7 := false]
  }

  // ----- what the other registers give back ---------------------------------------------------

  /** The cache register. A write keeps bit 7 of the low byte and nothing else, and a read
      gives it back among bits that always stand, with the interrupt line in bit 4. On a
      DS5500 it is a status register: writes do nothing, bit 3 is the cache board's absence
      and bit 0 a standing bus error. Both lanes carry the same byte. */
  lemma CacheRegister(r: Regs, v: word, i: nat)
    requires r.Wf() && i < 8
    ensures var b := CacheByte(r); Read16(r, 0x10200) == Join(b, b) && Read8(r, 0x10200) == Read8(r, 0x10201) == b
    ensures var t := Write16(r, 0x10200, v);
            BitSet(CacheByte(t), i) <==>
            if i == 4 then r.interruptPending
            else if i == 7 then r.ds5500 || BitSet(v, 7)
            else if i == 0 then !r.ds5500 || r.status[BUS_ERROR]
            else if i == 3 then !r.ds5500 || !r.hsi
            else true
  {
    var t := Write16(r, 0x10200, v);
    var bits := if r.ds5500 then [r.status[BUS_ERROR], true, true, !r.hsi, r.interruptPending, true, true, true]
                else [true, true, true, true, r.interruptPending, true, true, Low(v) >= 0x80];
    assert CacheByte(t) == ByteOf(bits);
    ByteBit(bits, i);
    if i == 7 { TopBit(v); }
    hide BitSet, ByteOf;
  }

  lemma TopBit(v: word)
    ensures BitSet(v, 7) <==> Low(v) >= 0x80
  {
    assert Pow2(7) == 0x80 && Pow2(8) == 0x100;
    LowerBit(High(v), Low(v), 8, 7);
    Halves(v);
    hide Low, High;
    assert BitSet(Low(v), 7) <==> Low(v) >= 0x80;
  }

  /** What a word written is read back as: the control register whole, the byte registers
      their low byte, the parity latch and the memory present register as they were, the
      selective clears all ones and an address with no register nothing. */
  lemma WrittenReads(r: Regs, address: long, v: word)
    requires r.Wf()
    ensures var t := Read16(Write16(r, address, v), address);
            match Decode(address)
            case CpuControl => t == v
            case MasterRequest => t == Low(v)
            case TaskAlias => t == Low(v)
            case LatchPage => t == r.latchPage
            case MemoryPresent => t == r.memoryPresent
            case SelectiveClear => t == 0xFFFF
            case Undecoded => t == 0
            case _ => true
  {
  }

  // ----- the posted codes ---------------------------------------------------------------

  /** What each event posts: the control register's upper byte after the write. */
  function CodesOf(r: Regs, e: Event): seq<byte>
    requires r.Wf()
  {
    if (e.Word? || e.Byte?) && Decode(e.address) == CpuControl then [High(Apply(r, e).control)] else []
  }

  function Stream(r: Regs, events: seq<Event>): seq<byte>
    requires r.Wf()
  {
    if events == [] then []
    else Stream(r, events[..|events| - 1]) + CodesOf(After(r, events[..|events| - 1]), events[|events| - 1])
  }

  /** Runs of one code collapsed. */
  function Collapse(s: seq<byte>): (t: seq<byte>)
    ensures s != [] ==> t != [] && t[|t| - 1] == s[|s| - 1]
    ensures s == [] <==> t == []
  {
    if |s| <= 1 then s
    else if s[|s| - 1] == s[|s| - 2] then Collapse(s[..|s| - 1])
    else Collapse(s[..|s| - 1]) + [s[|s| - 1]]
  }

  /** No two neighbours of a collapsed stream are equal, so nothing more could be
      dropped from it. */
  lemma {:induction false} CollapseIsTight(s: seq<byte>)
    ensures forall i :: 0 < i < |Collapse(s)| ==> Collapse(s)[i - 1] != Collapse(s)[i]
  {
    if |s| > 1 {
      CollapseIsTight(s[..|s| - 1]);
    }
  }

  function First(s: seq<byte>): seq<byte> {
    if |s| <= POSTED_CODES then s else s[..POSTED_CODES]
  }

  lemma CollapseStep(s: seq<byte>, code: byte)
    ensures Collapse(s + [code]) ==
            if s != [] && s[|s| - 1] == code then Collapse(s) else Collapse(s) + [code]
  {
  }

  lemma PostStep(r: Regs, s: seq<byte>, code: byte)
    requires r.posted == First(Collapse(s))
    ensures PostCode(r, code).posted == First(Collapse(s + [code]))
    ensures PostCode(r, code).postedTotal == r.postedTotal + 1
  {
    hide Collapse, First;
    CollapseStep(s, code);
    CollapseLast(s);
    FirstAppend(Collapse(s), code);
  }

  lemma CollapseLast(s: seq<byte>)
    ensures s == [] <==> Collapse(s) == []
    ensures s != [] ==> Collapse(s)[|Collapse(s)| - 1] == s[|s| - 1]
  {
  }

  lemma FirstAppend(c: seq<byte>, code: byte)
    ensures First(c + [code]) == if |c| < POSTED_CODES then c + [code] else First(c)
    ensures |c| < POSTED_CODES ==> First(c) == c
    ensures |First(c)| == if |c| < POSTED_CODES then |c| else POSTED_CODES
    ensures First(c) != [] && |c| < POSTED_CODES ==> First(c)[|First(c)| - 1] == c[|c| - 1]
  {
  }

  /** The log is the first thirty-two codes of everything posted, with runs of one
      code collapsed; the tally is of every post; and the register still shows the
      last code posted. */
  lemma {:induction false} PostedIsCollapsedStream(r: Regs, events: seq<Event>)
    requires r.Wf() && r.posted == [] && r.postedTotal == 0
    ensures var t, s := After(r, events), Stream(r, events);
            && t.posted == First(Collapse(s)) && t.postedTotal == |s|
            && High(t.control) == (if s == [] then High(r.control) else s[|s| - 1])
  {
    assert First(Collapse([])) == [];
    hide Apply, CodesOf, Collapse, First;
    if events != [] {
      var n := |events| - 1;
      PostedIsCollapsedStream(r, events[..n]);
      PostedStep(After(r, events[..n]), events[n], Stream(r, events[..n]));
    }
  }

  lemma PostedStep(r: Regs, e: Event, s: seq<byte>)
    requires r.Wf() && r.posted == First(Collapse(s))
    ensures var t, more := Apply(r, e), s + CodesOf(r, e);
            && t.posted == First(Collapse(more)) && t.postedTotal == r.postedTotal + |CodesOf(r, e)|
            && High(t.control) == (if CodesOf(r, e) == [] then High(r.control) else more[|more| - 1])
  {
    hide Collapse, First;
    EventPosts(r, e);
    if CodesOf(r, e) == [] {
      assert s + [] == s;
    } else {
      var c := CodesOf(r, e)[0];
      hide Apply, PostCode, CodesOf;
      PostStep(r, s, c);
      assert s + [c] == s + CodesOf(r, e);
    }
  }

  /** An event either leaves the log and the LED byte alone or posts that byte. */
  lemma EventPosts(r: Regs, e: Event)
    requires r.Wf()
    ensures var t, codes := Apply(r, e), CodesOf(r, e);
            if codes == [] then t.posted == r.posted && t.postedTotal == r.postedTotal
                && High(t.control) == High(r.control)
            else |codes| == 1 && codes[0] == High(t.control)
                 && t.posted == PostCode(r, codes[0]).posted && t.postedTotal == PostCode(r, codes[0]).postedTotal
  {
    hide StatusWord, CacheByte, Acknowledge, ClearStatus, Decode, High, Low, Join, PostCode;
    if CodesOf(r, e) != [] {
      var v :| Apply(r, e) == PostCode(r.(control := v), High(v));
      PostIgnoresControl(r, v, High(v));
    }
  }

  /** Posting neither reads nor writes the control register. */
  lemma PostIgnoresControl(r: Regs, v: word, code: byte)
    ensures var t, p := PostCode(r.(control := v), code), PostCode(r, code);
            t.control == v && t.posted == p.posted && t.postedTotal == p.postedTotal
  {
  }

  /** Once a code has been posted, writes to the low byte of the control register
      never lengthen the log. */
  lemma LowByteNeverPosts(r: Regs, events: seq<Event>, address: long, v: byte)
    requires r.Wf() && r.posted == [] && r.postedTotal == 0
    requires Stream(r, events) != [] && Decode(address) == CpuControl && address % 2 == 1
    ensures After(r, events + [Byte(address, v)]).posted == After(r, events).posted
    ensures Low(After(r, events + [Byte(address, v)]).control) == v
  {
    hide Apply, CodesOf, Collapse, First;
    var all := events + [Byte(address, v)];
    assert all[..|all| - 1] == events;
    PostedIsCollapsedStream(r, events);
    PostedIsCollapsedStream(r, all);
    var s, t := Stream(r, events), After(r, events);
    LowByteCode(t, address, v);
    assert Stream(r, all) == s + [High(t.control)];
    CollapseStep(s, High(t.control));
  }

  lemma LowByteCode(r: Regs, address: long, v: byte)
    requires r.Wf() && Decode(address) == CpuControl && address % 2 == 1
    ensures CodesOf(r, Byte(address, v)) == [High(r.control)]
    ensures Low(Apply(r, Byte(address, v)).control) == v
  {
  }

  // ----- the object ---------------------------------------------------------------------

  class BoardReg {
    var status: seq<bool>
    var control: word
    var cacheControl: byte
    var latchPage: word
    var masterRequest: byte
    var taskAlias: byte
    var memoryPresent: byte
    var ds5500: bool
    var hsi: bool
    var interruptPending: bool
    const log: array<byte>
    var postedCount: nat
    var postedTotal: nat

    ghost predicate Valid()
      reads this
    {
      |status| == 16 && log.Length == POSTED_CODES && postedCount <= POSTED_CODES
    }

    function View(): Regs
      requires Valid()
      reads this, log
    {
      Regs(status, control, cacheControl, latchPage, masterRequest, taskAlias, memoryPresent,
           ds5500, hsi, interruptPending, log[..postedCount], postedTotal)
    }

    /** Power on: normal mode, bit 15, an empty log. */
    constructor (ds5500: bool, hsi: bool)
      ensures Valid() && fresh(log) && View().posted == [] && postedTotal == 0
      ensures forall i :: 0 <= i < 16 ==> status[i] == (i == NORMAL_MODE || i == ALWAYS_SET)
      ensures control == 0xF700 && memoryPresent == 0xFF
    {
      status := seq(16, i => i == NORMAL_MODE || i == ALWAYS_SET);
      control, cacheControl, latchPage, masterRequest, taskAlias := 0xF700, 0xEF, 0, 0, 0;
      memoryPresent, interruptPending, postedCount, postedTotal := 0xFF, false, 0, 0;
      this.ds5500, this.hsi := ds5500, hsi;
      log := new byte[POSTED_CODES](i => 0);
    }

    method Post(code: byte)
      requires Valid()
      modifies `postedCount, `postedTotal, log
      ensures Valid() && View() == PostCode(old(View()), code)
    {
      postedTotal := postedTotal + 1;
      if postedCount > 0 && log[postedCount - 1] == code {
        return;
      }
      if postedCount >= POSTED_CODES {
        return;
      }
      log[postedCount] := code;
      postedCount := postedCount + 1;
    }

    method LatchStatus(bits: set<nat>)
      requires Valid()
      modifies `status
      ensures Valid() && View() == Apply(old(View()), Latch(bits))
    {
      var was := status;
      status := seq(16, i requires 0 <= i < 16 => was[i] || i in bits);
      assert status == Apply(old(View()), Latch(bits)).status;
    }

    method SetNormalMode(normal: bool)
      requires Valid()
      modifies `status
      ensures Valid() && View() == Apply(old(View()), Switch(normal))
    {
      status := status[NORMAL_MODE := normal];
    }

    /** The value a write carries, once the lane is settled. */
    method Put(id: Id, v: word)
      requires Valid()
      modifies this, log
      ensures Valid() && View() == Store(old(View()), id, v)
    {
      match id {
        case CpuStatus => status := Acknowledge(status);
        case CpuControl =>
          control := v;
          Post(High(v));
        case CacheControl =>
          if !ds5500 { cacheControl := if Low(v) >= 0x80 then 0x80 else 0; }
        case MasterRequest => masterRequest := Low(v);
        case TaskAlias => taskAlias := Low(v);
        case _ =>
      }
    }

    method WriteWord(address: long, v: word)
      requires Valid()
      modifies this, log
      ensures Valid() && View() == Write16(old(View()), address, v)
    {
      var id := Decode(address);
      if id == SelectiveClear {
        status := ClearStatus(status, address % 0x100);
        return;
      }
      Put(id, v);
    }

    method WriteLane(address: long, v: byte)
      requires Valid()
      modifies this, log
      ensures Valid() && View() == Write8(old(View()), address, v)
    {
      hide StatusWord, CacheByte, Store;
      var id := Decode(address);
      if id == SelectiveClear {
        status := ClearStatus(status, address % 0x100);
        return;
      }
      if IsByteRegister(id) {
        Put(id, v);
        return;
      }
      var held := ValueOf(View(), id);
      Put(id, if address % 2 == 1 then Join(High(held), v) else Join(v, Low(held)));
    }
  }
}

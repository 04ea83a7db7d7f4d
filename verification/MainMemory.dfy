/**
 * Main memory behind the board's byte path: transfers of one to four bytes, the
 * parity beside the array, and the observer that reads without touching either.
 */
module MainMemory {
  import opened AddressDecode
  import opened Arithmetic
  import opened CoreRegisters
  import opened Options
  import opened Words

  /** The array, its parity (empty when none is fitted), and the registers a failed
      access reports to. */
  datatype Memory = Memory(ram: seq<byte>, bad: seq<bool>, regs: Regs)
  {
    ghost predicate Wf() { regs.Wf() && (bad == [] || |bad| == |ram|) }
  }

  /** What answers the byte cycles of an access that fall beside memory: nothing, or a
      card on the AT bus. */
  datatype Beside = Beside(answers: long -> Option<byte>, accepts: (long, byte) -> bool)

  /** The machine: its map, whether its parity lane bits are inverted, and its slots. */
  datatype Machine = Machine(model: Model, activeLow: bool, beside: Beside)

  /** The four transfer sizes the processor has. */
  predicate TransferSize(count: nat) { 1 <= count <= 4 }

  function Step(address: long, i: nat): long { (address + i) % 0x1_0000_0000 }

  /** Every byte of the access falls in the space given to main memory. */
  predicate InMemory(machine: Machine, address: long, count: nat) {
    forall i :: 0 <= i < count ==> IsRam(machine.model, Seen(machine.model, Step(address, i)))
  }

  /** Some byte of the access does. */
  predicate Touches(machine: Machine, address: long, count: nat) {
    exists i :: 0 <= i < count && IsRam(machine.model, Seen(machine.model, Step(address, i)))
  }

  function Offset(machine: Machine, address: long): int {
    Seen(machine.model, address) as int - RamBase(machine.model) as int
  }

  /** Whether the control register is forcing bad parity into this byte's lane. */
  predicate Forced(machine: Machine, control: word, offset: nat) {
    var lane: nat := match offset % 4 case 0 => 0x10 case 1 => 0x20 case 2 => 0x40 case _ => 0x80;
    control / 8 % 2 == 1 && ((control as nat / lane % 2 == 1) != machine.activeLow)
  }

  function Latched(r: Regs, bit: nat): Regs
    requires r.Wf() && bit < 16
  {
    r.(status := r.status[bit := true])
  }

  /** Bit 3 of the control register forces, and bits 4 to 7 say in which lanes, lane 0
      being the longword's first byte; a board with the sense inverted forces the others. */
  lemma ForcedLanes(machine: Machine, control: word, offset: nat)
    ensures Forced(machine, control, offset) <==>
            BitSet(control, 3) && (BitSet(control, 4 + offset % 4) != machine.activeLow)
  {
    assert Pow2(3) == 0x8 && Pow2(4) == 0x10 && Pow2(5) == 0x20 && Pow2(6) == 0x40 && Pow2(7) == 0x80;
  }

  // ----- one byte ----------------------------------------------------------------------

  function StoreByte(machine: Machine, m: Memory, address: long, v: byte): (r: (Memory, bool))
    requires m.Wf()
    ensures r.0.Wf()
  {
    var o := Offset(machine, address);
    if !IsRam(machine.model, Seen(machine.model, address)) then
      if machine.beside.accepts(address, v) then (m, true) else (m.(regs := Latched(m.regs, BUS_ERROR)), false)
    else if o >= |m.ram| then (m.(regs := Latched(m.regs, BUS_ERROR)), false)
    else
      (m.(ram := m.ram[o := v],
          bad := if m.bad == [] then [] else m.bad[o := Forced(machine, m.regs.control, o)]), true)
  }

  function LoadByte(machine: Machine, m: Memory, address: long): (r: (Memory, bool, byte))
    requires m.Wf()
    ensures r.0.Wf()
  {
    var o := Offset(machine, address);
    if !IsRam(machine.model, Seen(machine.model, address)) then
      match machine.beside.answers(address)
      case None => (m.(regs := Latched(m.regs, BUS_ERROR)), false, 0xFF)
      case Some(v) => (m, true, v)
    else if o >= |m.ram| then (m.(regs := Latched(m.regs, BUS_ERROR)), false, 0xFF)
    else if m.bad != [] && m.bad[o] then
      (m.(regs := Latched(m.regs, 4 + o % 4).(latchPage := Seen(machine.model, address) / 0x400 % 0x1_0000)), true,
          m.ram[o])
    else (m, true, m.ram[o])
  }

  // ----- a whole access ------------------------------------------------------------------

  /** One past the largest value of `n` bytes. */
  function Power(n: nat): (p: nat)
    ensures p > 0
  {
    if n == 0 then 1 else 0x100 * Power(n - 1)
  }

  /** The value's bytes, most significant first. */
  function BytesOf(v: nat, count: nat): (s: seq<byte>)
    ensures |s| == count
  {
    if count == 0 then [] else BytesOf(v / 0x100, count - 1) + [v % 0x100]
  }

  /** A big-endian number. */
  function ValueOfBytes(s: seq<byte>): nat {
    if s == [] then 0 else 0x100 * ValueOfBytes(s[..|s| - 1]) + s[|s| - 1] as nat
  }

  /** The first `n` byte cycles of a store, and whether all of them were answered. */
  function Stores(machine: Machine, m: Memory, address: long, bytes: seq<byte>): (r: (Memory, bool))
    requires m.Wf()
    ensures r.0.Wf()
    decreases |bytes|
  {
    if bytes == [] then (m, true)
    else
      var n := |bytes| - 1;
      var before := Stores(machine, m, address, bytes[..n]);
      var last := StoreByte(machine, before.0, Step(address, n), bytes[n]);
      (last.0, before.1 && last.1)
  }

  /** The first `n` byte cycles of a load, and the bytes they brought. */
  function Loads(machine: Machine, m: Memory, address: long, n: nat): (r: (Memory, bool, seq<byte>))
    requires m.Wf()
    ensures r.0.Wf() && |r.2| == n
  {
    if n == 0 then (m, true, [])
    else
      var before := Loads(machine, m, address, n - 1);
      var last := LoadByte(machine, before.0, Step(address, n - 1));
      (last.0, before.1 && last.1, before.2 + [last.2])
  }

  // ----- what an access does ---------------------------------------------------------------

  /** Successive bytes of an access stand at successive offsets. */
  lemma {:induction false} Consecutive(machine: Machine, address: long, count: nat, i: nat)
    requires InMemory(machine, address, count) && i < count
    ensures 0 <= Offset(machine, address) && Seen(machine.model, Step(address, i)) == Seen(machine.model, address) + i
    ensures Offset(machine, Step(address, i)) == Offset(machine, address) + i
  {
    var model := machine.model;
    hide Seen, Step;
    StepZero(address);
    assert IsRam(model, Seen(model, Step(address, 0)));
    if i > 0 {
      Consecutive(machine, address, count, i - 1);
      StepNext(address, i);
      assert IsRam(model, Seen(model, Step(address, i - 1))) && IsRam(model, Seen(model, Step(address, i)));
      SeenNext(model, Step(address, i - 1));
    }
  }

  lemma StepZero(address: long)
    ensures Step(address, 0) == address
  {
  }

  lemma StepNext(address: long, i: nat)
    requires i > 0
    ensures Step(address, i) == Step(Step(address, i - 1), 1)
  {
  }

  lemma SeenNext(model: Model, a: long)
    requires IsRam(model, Seen(model, a)) && IsRam(model, Seen(model, Step(a, 1)))
    ensures Seen(model, Step(a, 1)) == Seen(model, a) + 1
  {
  }

  lemma StoreRam(machine: Machine, m: Memory, at: long, v: byte)
    requires m.Wf() && IsRam(machine.model, Seen(machine.model, at))
    ensures var r, o := StoreByte(machine, m, at, v), Offset(machine, at);
            && 0 <= o && r.1 == (o < |m.ram|)
            && (if o < |m.ram| then
                  && r.0.ram == m.ram[o := v] && r.0.regs == m.regs
                  && r.0.bad == if m.bad == [] then [] else m.bad[o := Forced(machine, m.regs.control, o)]
                else r.0 == m.(regs := Latched(m.regs, BUS_ERROR)))
  {
    hide Forced;
  }

  /** Every byte of memory after a store: the fitted bytes it names hold its bytes,
      with parity as the control register forces it, and no other byte changes. It is
      answered exactly when all its bytes are fitted; otherwise a bus error stands. */
  lemma {:induction false} StoreEffect(machine: Machine, m: Memory, address: long, bytes: seq<byte>)
    requires m.Wf() && |bytes| > 0 && InMemory(machine, address, |bytes|)
    ensures 0 <= Offset(machine, address)
    ensures var r, o := Stores(machine, m, address, bytes), Offset(machine, address);
            && |r.0.ram| == |m.ram| && |r.0.bad| == |m.bad|
            && (forall k :: 0 <= k < |m.ram| ==> r.0.ram[k] == if o <= k < o + |bytes| then bytes[k - o] else m.ram[k])
            && (forall k :: 0 <= k < |m.bad| ==>
                  r.0.bad[k] == if o <= k < o + |bytes| then Forced(machine, m.regs.control, k) else m.bad[k])
            && r.1 == (o + |bytes| <= |m.ram|)
            && r.0.regs == if r.1 then m.regs else Latched(m.regs, BUS_ERROR)
  {
    hide Forced, Seen, RamBase, IsRam, Step, StoreByte, Offset;
    var n := |bytes| - 1;
    Consecutive(machine, address, |bytes|, n);
    StoreRam(machine, Stores(machine, m, address, bytes[..n]).0, Step(address, n), bytes[n]);
    if n > 0 {
      StoreEffect(machine, m, address, bytes[..n]);
    } else {
      assert Stores(machine, m, address, bytes[..n]) == (m, true);
    }
  }

  // ----- an access that runs past memory -------------------------------------------------------

  /** Beside an access that touches memory lie only the AT bus, its Matrox board and
      nothing at all: no register, no port, no other device. */
  lemma NeighboursArePlain(machine: Machine, fit: Fitted, address: long, count: nat, i: nat)
    requires count <= 4 && i < count && Touches(machine, address, count)
    ensures !IsWordPort(address)
    ensures RegionOf(machine.model, fit, Step(address, i)) in {Ram, Unmapped, AtBus, Matrox}
  {
    var j :| 0 <= j < count && IsRam(machine.model, Seen(machine.model, Step(address, j)));
    NearMemory(machine.model, address, i, j);
    NearIsPlain(machine.model, fit, Seen(machine.model, Step(address, i)));
    hide RegionOf, Seen, IsRam;
    SeenTwice(machine.model, fit, Step(address, i));
  }

  /** Within three bytes of memory, below it or above. */
  predicate Near(model: Model, a: long) {
    RamBase(model) as int - 3 <= a as int <= RamLimit(model) as int + 3
  }

  lemma NearMemory(model: Model, address: long, i: nat, j: nat)
    requires i < 4 && j < 4 && IsRam(model, Seen(model, Step(address, j)))
    ensures Near(model, Seen(model, Step(address, i))) && !IsWordPort(address)
  {
    if model == Ds3000 {
      NearOnDs3000(address, i, j);
    } else {
      NearElsewhere(model, address, i, j);
    }
  }

  lemma NearOnDs3000(address: long, i: nat, j: nat)
    requires i < 4 && j < 4 && IsRam(Ds3000, Step(address, j) % 0x800_0000)
    ensures Near(Ds3000, Step(address, i) % 0x800_0000) && !IsWordPort(address)
  {
  }

  lemma NearElsewhere(model: Model, address: long, i: nat, j: nat)
    requires model != Ds3000 && i < 4 && j < 4 && IsRam(model, Step(address, j))
    ensures Near(model, Step(address, i)) && !IsWordPort(address)
  {
  }

  lemma SeenTwice(model: Model, fit: Fitted, address: long)
    ensures RegionOf(model, fit, address) == RegionOf(model, fit, Seen(model, address))
  {
    assert Seen(model, Seen(model, address)) == Seen(model, address);
    hide Seen;
  }

  lemma NearIsPlain(model: Model, fit: Fitted, a: long)
    requires Near(model, a) && Seen(model, a) == a
    ensures RegionOf(model, fit, a) in {Ram, Unmapped, AtBus, Matrox}
  {
    NearIsNotPlaced(model, a);
    hide FirstMatch, Placement, ExtraPlacement, GraphicsRows;
  }

  lemma NearIsNotPlaced(model: Model, a: long)
    requires Near(model, a)
    ensures FirstMatch(Placement(model) + ExtraPlacement(model), a) == Nowhere
            && FirstMatch(GraphicsRows(), a) == Nowhere
  {
    MatchIsSome(Placement(model) + ExtraPlacement(model), a);
    MatchIsSome(GraphicsRows(), a);
    NearMissesTable(model, a);
    NearMissesScreens(model, a);
    hide FirstMatch, Placement, ExtraPlacement, GraphicsRows;
  }

  lemma NearMissesTable(model: Model, a: long)
    requires Near(model, a)
    ensures forall r :: r in Placement(model) + ExtraPlacement(model) ==> !Hits(r, a)
  {
  }

  lemma NearMissesScreens(model: Model, a: long)
    requires Near(model, a)
    ensures forall r :: r in GraphicsRows() ==> !Hits(r, a)
  {
  }

  /** Byte `i` of the access falls at offset `k` of memory. */
  predicate Falls(machine: Machine, address: long, i: nat, k: int) {
    IsRam(machine.model, Seen(machine.model, Step(address, i))) && Offset(machine, Step(address, i)) == k
  }

  lemma FallsOnce(machine: Machine, address: long, i: nat, j: nat, k: int)
    requires i < j < 4 && Falls(machine, address, i, k)
    ensures !Falls(machine, address, j, k)
  {
  }

  predicate Answered(machine: Machine, fitted: nat, at: long, v: byte) {
    if IsRam(machine.model, Seen(machine.model, at)) then Offset(machine, at) < fitted
        else machine.beside.accepts(at, v)
  }

  /** Wherever an access lies: each of its bytes that falls on fitted memory is stored
      there, and no other byte of memory moves. */
  lemma {:induction false} StoreAnywhere(machine: Machine, m: Memory, address: long, bytes: seq<byte>)
    requires m.Wf() && |bytes| <= 4
    ensures var t := Stores(machine, m, address, bytes).0;
            && |t.ram| == |m.ram|
            && (forall i, k :: 0 <= i < |bytes| && 0 <= k < |m.ram| && Falls(machine, address, i, k) ==>
                t.ram[k] == bytes[i])
            && (forall k :: 0 <= k < |m.ram| && (forall i :: 0 <= i < |bytes| ==> !Falls(machine, address, i, k)) ==>
                  t.ram[k] == m.ram[k])
  {
    hide StoreByte, Falls, Step;
    if bytes != [] {
      var n := |bytes| - 1;
      StoreAnywhere(machine, m, address, bytes[..n]);
      OneByte(machine, Stores(machine, m, address, bytes[..n]).0, address, n, bytes[n]);
      forall i, k | 0 <= i < n && Falls(machine, address, i, k)
        ensures !Falls(machine, address, n, k)
      {
        FallsOnce(machine, address, i, n, k);
      }
    }
  }

  /** And it is answered exactly when every one of its bytes was. */
  lemma {:induction false} StoreAnswered(machine: Machine, m: Memory, address: long, bytes: seq<byte>)
    requires m.Wf()
    ensures |Stores(machine, m, address, bytes).0.ram| == |m.ram|
    ensures Stores(machine, m, address, bytes).1 <==>
            forall i :: 0 <= i < |bytes| ==> Answered(machine, |m.ram|, Step(address, i), bytes[i])
  {
    hide StoreByte, Answered, Step;
    if bytes != [] {
      var n := |bytes| - 1;
      StoreAnswered(machine, m, address, bytes[..n]);
      OneByte(machine, Stores(machine, m, address, bytes[..n]).0, address, n, bytes[n]);
      assert forall i :: 0 <= i < n ==> bytes[..n][i] == bytes[i];
    }
  }

  lemma OneByte(machine: Machine, m: Memory, address: long, i: nat, v: byte)
    requires m.Wf()
    ensures var r, at := StoreByte(machine, m, Step(address, i), v), Step(address, i);
            && |r.0.ram| == |m.ram|
            && (forall k :: 0 <= k < |m.ram| ==> r.0.ram[k] == if Falls(machine, address, i, k) then v else m.ram[k])
            && r.1 == Answered(machine, |m.ram|, at, v)
  {
    hide Forced;
  }

  /** What stands at an address, for a load: the fitted byte, or what answers beside
      memory. */
  function Standing(machine: Machine, m: Memory, at: long): Option<byte> {
    if !IsRam(machine.model, Seen(machine.model, at)) then machine.beside.answers(at)
    else if 0 <= Offset(machine, at) < |m.ram| then Some(m.ram[Offset(machine, at)])
    else None
  }

  /** Wherever an access lies, a load brings what stands at each of its bytes, all ones
      where nothing does; it is answered exactly when something stands at every one; and
      memory is as it was. */
  lemma {:induction false} LoadAnywhere(machine: Machine, m: Memory, address: long, n: nat)
    requires m.Wf()
    ensures var l := Loads(machine, m, address, n);
            && l.0.ram == m.ram && l.0.bad == m.bad
            && (l.1 <==> forall i :: 0 <= i < n ==> Standing(machine, m, Step(address, i)).Some?)
            && (forall i :: 0 <= i < n ==>
                  l.2[i] == match Standing(machine, m, Step(address, i)) case Some(v) => v case None => 0xFF)
  {
    hide LoadByte, Standing, Step;
    if n > 0 {
      LoadAnywhere(machine, m, address, n - 1);
      OneLoaded(machine, m, Loads(machine, m, address, n - 1).0, Step(address, n - 1));
    }
  }

  lemma OneLoaded(machine: Machine, was: Memory, m: Memory, at: long)
    requires m.Wf() && m.ram == was.ram && m.bad == was.bad
    ensures var l := LoadByte(machine, m, at);
            && l.0.ram == m.ram && l.0.bad == m.bad && (l.1 <==> Standing(machine, was, at).Some?)
            && l.2 == match Standing(machine, was, at) case Some(v) => v case None => 0xFF
  {
  }

  predicate BadAt(m: Memory, o: int) { 0 <= o < |m.bad| && m.bad[o] }

  /** The page latched by the last byte of an access that failed its check. */
  function LastPage(machine: Machine, m: Memory, address: long, n: nat): word {
    if n == 0 then m.regs.latchPage
    else if BadAt(m, Offset(machine, address) + n - 1) then (Seen(machine.model, address) + n - 1) / 0x400 % 0x1_0000
    else LastPage(machine, m, address, n - 1)
  }

  /** A lane condition the access raises, or the bus error of a byte not fitted. */
  ghost predicate Raises(machine: Machine, m: Memory, address: long, n: nat, bit: nat) {
    || (bit == BUS_ERROR && Offset(machine, address) + n > |m.ram|)
    || exists k :: Offset(machine, address) <= k < Offset(machine, address) + n && BadAt(m, k) && bit == 4 + k % 4
  }

  lemma {:induction false} LoadBrings(machine: Machine, m: Memory, address: long, n: nat)
    requires m.Wf() && n > 0 && InMemory(machine, address, n)
    ensures 0 <= Offset(machine, address)
    ensures var r, o := Loads(machine, m, address, n), Offset(machine, address);
            && r.0.ram == m.ram && r.0.bad == m.bad
            && (forall i :: 0 <= i < n ==> r.2[i] == if o + i < |m.ram| then m.ram[o + i] else 0xFF)
            && r.1 == (o + n <= |m.ram|)
  {
    Consecutive(machine, address, n, n - 1);
    if n > 1 {
      LoadBrings(machine, m, address, n - 1);
    } else {
      assert Loads(machine, m, address, 0) == (m, true, []);
    }
    ByteEffect(machine, Loads(machine, m, address, n - 1).0, Step(address, n - 1));
    hide LoadByte;
  }

  lemma {:induction false} LoadRaises(machine: Machine, m: Memory, address: long, n: nat)
    requires m.Wf() && n > 0 && InMemory(machine, address, n)
    ensures forall bit :: 0 <= bit < 16 ==>
              (Loads(machine, m, address, n).0.regs.status[bit] <==>
                  m.regs.status[bit] || Raises(machine, m, address, n, bit))
  {
    hide LoadByte, Raises, Seen, RamBase, IsRam, BadAt;
    var before := Loads(machine, m, address, n - 1).0;
    Consecutive(machine, address, n, n - 1);
    if n > 1 {
      LoadBrings(machine, m, address, n - 1);
      LoadRaises(machine, m, address, n - 1);
    } else {
      assert before == m;
    }
    LoadLast(machine, m, address, n);
    ByteEffect(machine, before, Step(address, n - 1));
    SameMarks(m, before, Offset(machine, address) + n - 1);
  }

  lemma SameMarks(m: Memory, t: Memory, o: int)
    requires m.bad == t.bad
    ensures BadAt(m, o) == BadAt(t, o)
  {
  }

  lemma {:induction false} LoadLatches(machine: Machine, m: Memory, address: long, n: nat)
    requires m.Wf() && n > 0 && InMemory(machine, address, n)
    ensures var r := Loads(machine, m, address, n).0.regs;
            r == m.regs.(status := r.status, latchPage := LastPage(machine, m, address, n))
  {
    hide LoadByte, IsRam, BadAt, Seen, RamBase, Step;
    var before := Loads(machine, m, address, n - 1).0;
    Consecutive(machine, address, n, n - 1);
    if n > 1 {
      LoadBrings(machine, m, address, n - 1);
      LoadLatches(machine, m, address, n - 1);
    } else {
      assert before == m && LastPage(machine, m, address, 0) == m.regs.latchPage;
    }
    ByteEffect(machine, before, Step(address, n - 1));
    SameMarks(m, before, Offset(machine, address) + n - 1);
  }

  /** Every effect of a load: the bytes of the array, all ones where none is fitted;
      the conditions it raises in the status register and no others; the page of the
      last byte that failed; and nothing else, in the array least of all. */
  lemma LoadEffect(machine: Machine, m: Memory, address: long, n: nat)
    requires m.Wf() && n > 0 && InMemory(machine, address, n)
    ensures 0 <= Offset(machine, address)
    ensures var r, o := Loads(machine, m, address, n), Offset(machine, address);
            && r.0.ram == m.ram && r.0.bad == m.bad
            && (forall i :: 0 <= i < n ==> r.2[i] == if o + i < |m.ram| then m.ram[o + i] else 0xFF)
            && r.1 == (o + n <= |m.ram|)
            && (forall bit :: 0 <= bit < 16 ==>
                  r.0.regs.status[bit] == (m.regs.status[bit] || Raises(machine, m, address, n, bit)))
            && r.0.regs == m.regs.(status := r.0.regs.status, latchPage := LastPage(machine, m, address, n))
  {
    LoadBrings(machine, m, address, n);
    LoadRaises(machine, m, address, n);
    LoadLatches(machine, m, address, n);
    hide *;
  }

  /** One byte cycle: what it brings and what it reports. */
  lemma ByteEffect(machine: Machine, m: Memory, address: long)
    requires m.Wf() && IsRam(machine.model, Seen(machine.model, address))
    ensures var r, o := LoadByte(machine, m, address), Offset(machine, address);
            && r.0.ram == m.ram && r.0.bad == m.bad && r.1 == (o < |m.ram|)
            && r.2 == (if o < |m.ram| then m.ram[o] else 0xFF)
            && (forall bit :: 0 <= bit < 16 ==>
                  r.0.regs.status[bit] == (m.regs.status[bit] || (BadAt(m, o) && bit == 4 + o % 4)
                                           || (bit == BUS_ERROR && o >= |m.ram|)))
            && r.0.regs == m.regs.(status := r.0.regs.status, latchPage := r.0.regs.latchPage)
            && r.0.regs.latchPage ==
               (if BadAt(m, o) then Seen(machine.model, address) / 0x400 % 0x1_0000 else m.regs.latchPage)
  {
  }

  lemma LoadLast(machine: Machine, m: Memory, address: long, n: nat)
    requires m.Wf() && n > 0
    ensures forall bit :: Raises(machine, m, address, n, bit) <==>
                          || (n > 1 && Raises(machine, m, address, n - 1, bit))
                          || (BadAt(m, Offset(machine, address) + n - 1)
                              && bit == 4 + (Offset(machine, address) + n - 1) % 4)
                          || (bit == BUS_ERROR && Offset(machine, address) + n > |m.ram|)
  {
  }

  // ----- what was written is what is read -----------------------------------------------------

  lemma {:induction false} BigEndian(v: nat, count: nat)
    ensures ValueOfBytes(BytesOf(v, count)) == v % Power(count)
  {
    if count > 0 {
      var s := BytesOf(v, count);
      assert s[..count - 1] == BytesOf(v / 0x100, count - 1);
      BigEndian(v / 0x100, count - 1);
      Digit(v, Power(count - 1));
    }
  }

  lemma Digit(v: nat, p: nat)
    requires p > 0
    ensures 0x100 * (v / 0x100 % p) + v % 0x100 == v % (0x100 * p)
  {
    var q, r := v / 0x100 / p, v / 0x100 % p;
    assert v == (0x100 * p) * q + (0x100 * r + v % 0x100);
    Division(v, 0x100 * p, q, 0x100 * r + v % 0x100);
  }

  /** What the observer answers: it takes the address as given, checks that the whole
      transfer is fitted, and reads the array. */
  datatype Peeked = Refused | Read(value: nat)

  function Peek(machine: Machine, m: Memory, address: long, count: nat): Peeked {
    if !TransferSize(count) || !IsRam(machine.model, address) then Refused
    else
      var o := address as nat - RamBase(machine.model) as nat;
      if o >= |m.ram| || count > |m.ram| - o then Refused else Read(ValueOfBytes(m.ram[o..o + count]))
  }

  /** A fitted store is answered, and a load of the same transfer is answered with the
      value's low bytes, whatever parity was forced; the observer, asked at the address
      the machine decodes, sees the same. */
  lemma StoreThenLoad(machine: Machine, m: Memory, address: long, count: nat, value: nat)
    requires m.Wf() && 1 <= count <= 4 && InMemory(machine, address, count)
    requires Offset(machine, address) + count <= |m.ram|
    ensures var s := Stores(machine, m, address, BytesOf(value, count));
            var l := Loads(machine, s.0, address, count);
            && s.1 && l.1 && ValueOfBytes(l.2) == value % Power(count)
            && Peek(machine, s.0, Seen(machine.model, address), count) == Read(value % Power(count))
  {
    hide *;
    var bytes := BytesOf(value, count);
    var s := Stores(machine, m, address, bytes).0;
    BigEndian(value, count);
    StoredBytes(machine, m, address, bytes);
    var o := Offset(machine, address);
    PeekAt(machine, s, address, count);
  }

  /** A fitted store puts its bytes where a load of the same transfer finds them. */
  lemma StoredBytes(machine: Machine, m: Memory, address: long, bytes: seq<byte>)
    requires m.Wf() && |bytes| > 0 && InMemory(machine, address, |bytes|)
    requires Offset(machine, address) + |bytes| <= |m.ram|
    ensures 0 <= Offset(machine, address)
    ensures var s, o := Stores(machine, m, address, bytes), Offset(machine, address);
            && |s.0.ram| == |m.ram| && s.0.ram[o..o + |bytes|] == bytes && s.1
            && Loads(machine, s.0, address, |bytes|).1 && Loads(machine, s.0, address, |bytes|).2 == bytes
  {
    StoreEffect(machine, m, address, bytes);
    LoadEffect(machine, Stores(machine, m, address, bytes).0, address, |bytes|);
    hide Stores, Loads, InMemory, Forced, Raises, LastPage;
  }

  lemma PeekAt(machine: Machine, m: Memory, address: long, count: nat)
    requires 1 <= count <= 4 && InMemory(machine, address, count)
    requires Offset(machine, address) + count <= |m.ram|
    ensures var o := Offset(machine, address);
            0 <= o && Peek(machine, m, Seen(machine.model, address), count) == Read(ValueOfBytes(m.ram[o..o + count]))
  {
    Consecutive(machine, address, count, 0);
    assert IsRam(machine.model, Seen(machine.model, Step(address, 0)));
    hide ValueOfBytes;
  }

  /** The observer sees what a load would bring exactly when the load would be answered
      and the address carries no bits the machine ignores. */
  lemma PeekIff(machine: Machine, m: Memory, address: long, count: nat)
    requires m.Wf() && TransferSize(count) && InMemory(machine, address, count)
    ensures var l := Loads(machine, m, address, count);
            && (Peek(machine, m, address, count).Read? <==> l.1 && Seen(machine.model, address) == address)
            && (Peek(machine, m, address, count).Read? ==> Peek(machine, m, address, count).value == ValueOfBytes(l.2))
  {
    hide Loads, ValueOfBytes, InMemory, Offset, Seen, IsRam, Peek;
    LoadBrings(machine, m, address, count);
    PeekBeyond(machine, m, address, count);
    var o, l := Offset(machine, address), Loads(machine, m, address, count);
    if l.1 {
      PeekAt(machine, m, address, count);
      assert m.ram[o..o + count] == l.2;
    }
  }

  lemma PeekBeyond(machine: Machine, m: Memory, address: long, count: nat)
    ensures Seen(machine.model, address) != address || Offset(machine, address) + count > |m.ram| ==>
            Peek(machine, m, address, count) == Refused
  {
  }

  /** A load from a machine with no lane condition standing raises level 7 exactly when
      the control register enables it and some byte of the load is marked bad. */
  lemma LoadInterruptsIff(machine: Machine, m: Memory, address: long, n: nat)
    requires m.Wf() && n > 0 && InMemory(machine, address, n)
    requires forall bit :: 4 <= bit <= 7 ==> !m.regs.status[bit]
    ensures ParityInterrupt(Loads(machine, m, address, n).0.regs) <==>
            m.regs.control % 2 == 1 &&
            exists k :: Offset(machine, address) <= k < Offset(machine, address) + n && BadAt(m, k)
  {
    LoadEffect(machine, m, address, n);
    hide Loads;
    var o := Offset(machine, address);
    if k :| o <= k < o + n && BadAt(m, k) {
      assert Raises(machine, m, address, n, 4 + k % 4);
    }
  }

  // ----- every history ----------------------------------------------------------------------------

  datatype Access = Put(address: long, bytes: seq<byte>) | Get(address: long, n: nat) | Reg(event: Event)

  ghost predicate Legal(machine: Machine, a: Access) {
    match a
    case Put(address, bytes) => |bytes| > 0 && InMemory(machine, address, |bytes|)
    case Get(address, n) => n > 0 && InMemory(machine, address, n)
    case Reg(_) => true
  }

  ghost predicate AllLegal(machine: Machine, run: seq<Access>) {
    forall i :: 0 <= i < |run| ==> Legal(machine, run[i])
  }

  function Perform(machine: Machine, m: Memory, a: Access): (t: Memory)
    requires m.Wf() && Legal(machine, a)
    ensures t.Wf()
  {
    match a
    case Put(address, bytes) => Stores(machine, m, address, bytes).0
    case Get(address, n) => Loads(machine, m, address, n).0
    case Reg(e) => m.(regs := Apply(m.regs, e))
  }

  function Performed(machine: Machine, m: Memory, run: seq<Access>): (t: Memory)
    requires m.Wf() && AllLegal(machine, run)
    ensures t.Wf()
  {
    if run == [] then m
    else
      var n := |run| - 1;
      assert AllLegal(machine, run[..n]) && Legal(machine, run[n]);
      Perform(machine, Performed(machine, m, run[..n]), run[n])
  }

  predicate Covers(machine: Machine, a: Access, k: nat) {
    a.Put? && Offset(machine, a.address) <= k < Offset(machine, a.address) + |a.bytes|
  }

  /** The byte the last store over an offset left there. */
  ghost function Held(machine: Machine, m: Memory, run: seq<Access>, k: nat): byte
    requires k < |m.ram|
  {
    if run == [] then m.ram[k]
    else
      var last := run[|run| - 1];
      if Covers(machine, last, k) then last.bytes[k - Offset(machine, last.address)]
      else Held(machine, m, run[..|run| - 1], k)
  }

  /** Whether bad parity was being forced into the byte's lane when it was last stored. */
  ghost function Marked(machine: Machine, m: Memory, run: seq<Access>, k: nat): bool
    requires m.Wf() && AllLegal(machine, run) && k < |m.bad|
  {
    if run == [] then m.bad[k]
    else
      var n := |run| - 1;
      assert AllLegal(machine, run[..n]);
      if Covers(machine, run[n], k) then Forced(machine, Performed(machine, m, run[..n]).regs.control, k)
      else Marked(machine, m, run[..n], k)
  }

  /** Over every run of stores, loads and register traffic, each byte of memory is the
      last one stored there, and its parity is bad exactly when that store was made
      with its lane forced: an ordinary store is the whole of the clearing. */
  lemma {:induction false} MemoryHistory(machine: Machine, m: Memory, run: seq<Access>, k: nat)
    requires m.Wf() && AllLegal(machine, run) && k < |m.ram|
    ensures var t := Performed(machine, m, run);
            && |t.ram| == |m.ram| && t.ram[k] == Held(machine, m, run, k)
            && |t.bad| == |m.bad| && (k < |m.bad| ==> t.bad[k] == Marked(machine, m, run, k))
  {
    hide Perform, Covers, Forced;
    if run != [] {
      var n := |run| - 1;
      assert AllLegal(machine, run[..n]) && Legal(machine, run[n]);
      MemoryHistory(machine, m, run[..n], k);
      MemoryStep(machine, Performed(machine, m, run[..n]), run[n], k);
    }
  }

  lemma MemoryStep(machine: Machine, m: Memory, a: Access, k: nat)
    requires m.Wf() && Legal(machine, a) && k < |m.ram|
    ensures var t := Perform(machine, m, a);
            && |t.ram| == |m.ram| && |t.bad| == |m.bad|
            && (Covers(machine, a, k) ==> 0 <= Offset(machine, a.address))
            && t.ram[k] == (if Covers(machine, a, k) then a.bytes[k - Offset(machine, a.address)] else m.ram[k])
            && (k < |m.bad| ==>
                  t.bad[k] == if Covers(machine, a, k) then Forced(machine, m.regs.control, k) else m.bad[k])
  {
    hide Forced, Stores, Loads;
    match a
    case Put(address, bytes) => StoreEffect(machine, m, address, bytes);
    case Get(address, n) => LoadEffect(machine, m, address, n);
    case Reg(e) =>
  }

  // ----- the object ----------------------------------------------------------------------------------

  lemma {:induction false} ByteAt(v: nat, count: nat, i: nat)
    requires i < count
    ensures BytesOf(v, count)[i] as nat == v / Power(count - 1 - i) % 0x100
  {
    if i < count - 1 {
      ByteAt(v / 0x100, count - 1, i);
      ShiftTwice(v, Power(count - 2 - i));
    }
  }

  lemma ShiftTwice(v: nat, p: nat)
    requires p > 0
    ensures v / 0x100 / p == v / (0x100 * p)
  {
    var q, r := v / 0x100 / p, v / 0x100 % p;
    assert v == (0x100 * p) * q + (0x100 * r + v % 0x100);
    Division(v, 0x100 * p, q, 0x100 * r + v % 0x100);
  }

  lemma LoadNext(machine: Machine, m: Memory, address: long, i: nat)
    requires m.Wf()
    ensures var before := Loads(machine, m, address, i);
            var last := LoadByte(machine, before.0, Step(address, i));
            Loads(machine, m, address, i + 1) == (last.0, before.1 && last.1, before.2 + [last.2])
  {
  }

  lemma ValueNext(s: seq<byte>, b: byte)
    ensures ValueOfBytes(s + [b]) == 0x100 * ValueOfBytes(s) + b as nat
  {
  }

  class BoardMemory {
    const machine: Machine
    const ram: array<byte>
    const bad: array<bool>
    const registers: BoardReg

    ghost predicate Valid()
      reads this, registers
    {
      registers.Valid() && registers.log != ram && (bad.Length == 0 || bad.Length == ram.Length)
    }

    function View(): (m: Memory)
      requires Valid()
      reads this, ram, bad, registers, registers.log
      ensures m.Wf()
    {
      Memory(ram[..], bad[..], registers.View())
    }

    constructor (machine: Machine, ram: array<byte>, bad: array<bool>, registers: BoardReg)
      requires registers.Valid() && registers.log != ram && (bad.Length == 0 || bad.Length == ram.Length)
      ensures Valid() && View() == Memory(ram[..], bad[..], registers.View())
      ensures this.machine == machine && this.ram == ram && this.bad == bad && this.registers == registers
    {
      this.machine, this.ram, this.bad, this.registers := machine, ram, bad, registers;
    }

    method BusError()
      requires Valid()
      modifies registers`status
      ensures Valid() && View() == old(View()).(regs := Latched(old(View()).regs, BUS_ERROR))
    {
      registers.LatchStatus({BUS_ERROR});
      assert registers.status == old(registers.status)[BUS_ERROR := true];
    }

    method WriteByte(address: long, value: byte) returns (ok: bool)
      requires Valid()
      modifies ram, bad, registers`status
      ensures Valid() && (View(), ok) == StoreByte(machine, old(View()), address, value)
    {
      hide Forced, Seen, RamBase, IsRam;
      if !IsRam(machine.model, Seen(machine.model, address)) {
        ok := machine.beside.accepts(address, value);
        if !ok { BusError(); }
        return;
      }
      var o := Offset(machine, address);
      assert o >= 0 by { RamOffset(machine, address); }
      if o >= ram.Length {
        BusError();
        return false;
      }
      ram[o] := value;
      if bad.Length > 0 {
        bad[o] := Forced(machine, registers.control, o);
      }
      return true;
    }

    method ReadByte(address: long) returns (ok: bool, value: byte)
      requires Valid()
      modifies registers`status, registers`latchPage
      ensures Valid() && (View(), ok, value) == LoadByte(machine, old(View()), address)
    {
      hide Seen, RamBase, IsRam;
      if !IsRam(machine.model, Seen(machine.model, address)) {
        var answer := machine.beside.answers(address);
        if answer.None? {
          BusError();
          return false, 0xFF;
        }
        return true, answer.value;
      }
      var o := Offset(machine, address);
      assert o >= 0 by { RamOffset(machine, address); }
      if o >= ram.Length {
        BusError();
        return false, 0xFF;
      }
      if bad.Length > 0 && bad[o] {
        registers.LatchStatus({4 + o % 4});
        registers.latchPage := Seen(machine.model, address) / 0x400 % 0x1_0000;
        assert registers.status == old(registers.status)[4 + o % 4 := true];
      }
      return true, ram[o];
    }

    /** A transfer's bytes go out most significant first, each a byte cycle. */
    method WriteAccess(address: long, count: nat, value: long) returns (all: bool)
      requires Valid() && (TransferSize(count) ==> Touches(machine, address, count))
      modifies ram, bad, registers`status
      ensures Valid()
      ensures if TransferSize(count) then (View(), all) == Stores(machine, old(View()), address, BytesOf(value, count))
              else !all && View() == old(View())
    {
      if !TransferSize(count) { return false; }
      ghost var bytes := BytesOf(value, count);
      all := true;
      hide StoreByte, BytesOf, Power, Forced, Seen, RamBase, IsRam;
      for i := 0 to count
        invariant Valid() && (View(), all) == Stores(machine, old(View()), address, bytes[..i])
      {
        ByteAt(value, count, i);
        var ok := WriteByte(Step(address, i), value / Power(count - 1 - i) % 0x100);
        assert bytes[..i + 1][..i] == bytes[..i];
        all := all && ok;
      }
      assert bytes[..count] == bytes;
    }

    method ReadAccess(address: long, count: nat) returns (all: bool, value: nat)
      requires Valid() && (TransferSize(count) ==> Touches(machine, address, count))
      modifies registers`status, registers`latchPage
      ensures Valid()
      ensures if !TransferSize(count) then !all && View() == old(View())
              else var l := Loads(machine, old(View()), address, count);
                   View() == l.0 && all == l.1 && value == ValueOfBytes(l.2)
    {
      all, value := true, 0;
      if !TransferSize(count) { return false, 0; }
      assert Loads(machine, View(), address, 0) == (View(), true, []) && ValueOfBytes([]) == 0;
      hide Loads, LoadByte, Seen, RamBase, IsRam, ValueOfBytes, Step;
      for i := 0 to count
        invariant Valid()
        invariant var l := Loads(machine, old(View()), address, i);
                  View() == l.0 && all == l.1 && value == ValueOfBytes(l.2)
      {
        var ok, b := ReadByte(Step(address, i));
        LoadNext(machine, old(View()), address, i);
        ValueNext(Loads(machine, old(View()), address, i).2, b);
        all, value := all && ok, 0x100 * value + b as nat;
      }
    }

    /** The observer changes nothing: no parity check, no latch, no bus error. */
    method PeekRam(address: long, count: nat) returns (seen: Peeked)
      requires Valid()
      ensures seen == Peek(machine, View(), address, count)
    {
      if !TransferSize(count) || !IsRam(machine.model, address) { return Refused; }
      var o := address as nat - RamBase(machine.model) as nat;
      if o >= ram.Length || count > ram.Length - o { return Refused; }
      var value := 0;
      for i := 0 to count
        invariant value == ValueOfBytes(ram[o..o + i])
      {
        assert ram[o..o + (i + 1)][..i] == ram[o..o + i];
        value := 0x100 * value + ram[o + i] as nat;
      }
      return Read(value);
    }
  }

  lemma RamOffset(machine: Machine, address: long)
    requires IsRam(machine.model, Seen(machine.model, address))
    ensures Offset(machine, address) >= 0
  {
  }
}

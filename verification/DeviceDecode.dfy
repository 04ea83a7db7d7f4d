/**
 * What a placed address reaches: the map hands each device module an address in the
 * module's own space, and the module decodes it to a unit and a register. On every
 * board every placed address is one its module answers.
 */
module DeviceDecode {
  import opened Arithmetic
  import opened Options
  import opened Words
  import opened AddressDecode
  import CoreRegisters

  /** A unit of the device and a register of the unit; `Idle` is an address of the module
      with no register behind it. */
  datatype Target = Register(unit: nat, reg: nat) | Idle

  function Block(c: nat): nat { c / 0x100 * 0x100 }

  /** Two serial parts, both bytes of a word the same register. */
  function SioDecode(c: nat): Option<Target> {
    if Block(c) == 0x10400 then Some(Register(0, c / 2 % 16))
    else if Block(c) == 0x10500 then Some(Register(1, c / 2 % 16))
    else None
  }

  /** Odd bytes only. */
  function TimerDecode(c: nat): Option<Target> {
    if Block(c) != 0x10800 then None else if c % 2 == 0 then Some(Idle) else Some(Register(0, c / 2 % 8))
  }

  function CalendarDecode(c: nat): Option<Target> {
    if Block(c) == 0x10900 then Some(Register(0, c % 64)) else None
  }

  /** The first controller's registers are a byte apart, the second's a word. */
  function DmaDecode(c: nat): Option<Target> {
    if Block(c) == 0x10C00 then Some(Register(0, c % 16))
    else if Block(c) == 0x10D00 then Some(Register(1, c / 2 % 16))
    else None
  }

  /** Master and slave; A0 is address bit 0. */
  function InterruptDecode(c: nat): Option<Target> {
    if Block(c) == 0x11000 then Some(Register(0, c % 2))
    else if Block(c) == 0x11100 then Some(Register(1, c % 2))
    else None
  }

  /** Even bytes only. */
  function NodeIdDecode(c: nat): Option<Target> {
    if Block(c) != 0x11200 then None else if c % 2 == 1 then Some(Idle) else Some(Register(0, c / 2 % 16))
  }

  function DiskDecode(c: nat): Option<Target> {
    if 0x4D000 <= c < 0x4D400 then Some(Register(0, c % 4))
    else if 0x5F800 <= c < 0x5FC00 then Some(Register(1, c % 8))
    else None
  }

  function TapeDecode(c: nat): Option<Target> {
    if Block(c) != 0x50000 then None else if c % 8 >= 4 then Some(Idle) else Some(Register(0, c % 8))
  }

  /** The registers of the core file by number, in the order of their addresses. */
  function CoreDecode(c: nat): Option<Target> {
    if c >= 0x1_0000_0000 then None
    else match CoreRegisters.Decode(c)
      case CpuStatus => Some(Register(0, 0))
      case CpuControl => Some(Register(0, 1))
      case CacheControl => Some(Register(0, 2))
      case TaskAlias => Some(Register(0, 3))
      case LatchPage => Some(Register(0, 4))
      case MemoryPresent => Some(Register(0, 5))
      case MasterRequest => Some(Register(0, 6))
      case SelectiveClear => Some(Register(0, 7))
      case Undecoded => None
  }

  /** The module behind a region, for the regions that have one that decodes. */
  function ModuleDecode(region: Region, c: nat): Option<Target> {
    match region
    case CoreRegister => CoreDecode(c)
    case Sio => SioDecode(c)
    case Timer => TimerDecode(c)
    case Calendar => CalendarDecode(c)
    case Dma => DmaDecode(c)
    case Interrupt => InterruptDecode(c)
    case NodeId => NodeIdDecode(c)
    case Disk => DiskDecode(c)
    case Tape => TapeDecode(c)
    case _ => None
  }

  /** Storage answers by offset: where each kind of it lives. */
  predicate InStorage(region: Region, c: nat) {
    match region
    case Prom => c < 0x20000
    case TranslationMap => 0x17000 <= c < 0x18000
    case DmaPage => Block(c) == 0x9200
    case CacheRam => 0x12000 <= c < 0x14000
    case CacheCcRam => 0x14000 <= c < 0x16000
    case IoProtectionMap => 0x700_0000 <= c < 0x701_0000
    case Ds5500Block => Block(c) == 0x11500
    case S2500Control => Block(c) == 0x20200
    case DesktopVisualization => 0xF800_0000 <= c < 0xFE00_0000
    case _ => false
  }

  predicate Answers(region: Region, c: int) {
    c >= 0 && (ModuleDecode(region, c).Some? || InStorage(region, c))
  }

  function Rows(model: Model): seq<Row> { Placement(model) + ExtraPlacement(model) }

  /** The row that holds an address decides it, wherever it stands in the table: its
      device is given the row's own address at the row's base, and one more for each
      address after it. */
  lemma RowDecides(model: Model, row: Row, address: long)
    requires row in Rows(model) && Hits(row, address)
    ensures FirstMatch(Rows(model), address) ==
            At(row.region, row.canonical as int + (address as int - row.base as int))
  {
    TablesApart(model);
    hide Placement, ExtraPlacement;
    ApartJoin(Placement(model), ExtraPlacement(model));
    ApartIsCompatible(Rows(model));
    AnyMatch(Rows(model), row, address);
  }

  lemma InStep(model: Model, row: Row, address: long)
    requires address < 0xFFFF_FFFF
    requires row in Rows(model) && Hits(row, address) && Hits(row, address + 1)
    ensures var here, next := FirstMatch(Rows(model), address), FirstMatch(Rows(model), address + 1);
            here.At? && next.At? && next.region == here.region && next.canonical == here.canonical + 1
  {
    hide Placement, ExtraPlacement, FirstMatch;
    RowDecides(model, row, address);
    RowDecides(model, row, address + 1);
  }

  // ----- every placement is one its module answers ---------------------------------------

  predicate RowAnswered(row: Row, address: long) {
    Hits(row, address) ==> Answers(row.region, row.canonical as int + (address as int - row.base as int))
  }

  lemma Series4000Answered(i: nat, address: long)
    requires i < |Series4000Rows()|
    ensures RowAnswered(Series4000Rows()[i], address)
  {
  }

  lemma Ds5500Answered(i: nat, address: long)
    requires i < |Ds5500Rows()|
    ensures RowAnswered(Ds5500Rows()[i], address)
  {
  }

  lemma Ds3000Answered(i: nat, address: long)
    requires i < |Ds3000Rows()|
    ensures RowAnswered(Ds3000Rows()[i], address)
  {
  }

  lemma Ds2500Answered(i: nat, address: long)
    requires i < |Ds2500Rows()|
    ensures RowAnswered(Ds2500Rows()[i], address)
  {
  }

  lemma CacheAnswered(i: nat, address: long)
    requires i < |CacheRows()|
    ensures RowAnswered(CacheRows()[i], address)
  {
  }

  lemma TableAnswered(model: Model, i: nat, address: long)
    requires i < |Rows(model)|
    ensures RowAnswered(Rows(model)[i], address)
  {
    hide Series4000Rows, Ds5500Rows, Ds3000Rows, Ds2500Rows, CacheRows, RowAnswered;
    if i >= |Placement(model)| {
      CacheAnswered(i - |Placement(model)|, address);
    } else {
      match model
      case Series4000 => Series4000Answered(i, address);
      case Ds4000 => Series4000Answered(i, address);
      case Ds5500 => Ds5500Answered(i, address);
      case Ds3000 => Ds3000Answered(i, address);
      case Ds2500 => Ds2500Answered(i, address);
    }
  }

  /** On every board, whatever the table places, the device it names answers at the
      address it is handed. */
  lemma EveryPlaceAnswers(model: Model, address: long)
    ensures var found := FirstMatch(Rows(model), address);
            found.At? ==> Answers(found.region, found.canonical)
  {
    hide Rows, Answers;
    MatchIsSome(Rows(model), address);
    if FirstMatch(Rows(model), address).At? {
      var i :| 0 <= i < |Rows(model)| && Hits(Rows(model)[i], address)
          && FirstMatch(Rows(model), address) == PlaceIn(Rows(model)[i], address);
      TableAnswered(model, i, address);
      RowDecides(model, Rows(model)[i], address);
    }
  }

  /** The boards whose devices stand where their modules expect them. */
  lemma PlacedAtHome(model: Model, address: long)
    requires model == Series4000 || model == Ds4000 || model == Ds5500
    ensures var found := FirstMatch(Rows(model), address); found.At? ==> found.canonical == address
  {
    MatchIsSome(Rows(model), address);
    if FirstMatch(Rows(model), address).At? {
      var i :| 0 <= i < |Rows(model)| && Hits(Rows(model)[i], address)
          && FirstMatch(Rows(model), address) == PlaceIn(Rows(model)[i], address);
      RowDecides(model, Rows(model)[i], address);
      HomeRow(model, i);
    }
    hide Rows;
  }

  lemma HomeRow(model: Model, i: nat)
    requires (model == Series4000 || model == Ds4000 || model == Ds5500) && i < |Rows(model)|
    ensures Rows(model)[i].canonical == Rows(model)[i].base
  {
  }

  // ----- the devices that move ---------------------------------------------------------------

  /** What an address of the machine reaches. */
  function Reached(model: Model, address: long): Option<Target> {
    match FirstMatch(Rows(model), address)
    case Nowhere => None
    case At(region, c) => if c < 0 then None else ModuleDecode(region, c)
  }

  lemma ReachedThrough(model: Model, row: Row, address: long)
    requires row in Rows(model) && Hits(row, address)
    ensures Reached(model, address) == ModuleDecode(row.region, row.canonical + (address - row.base))
  {
    hide Rows, FirstMatch, ModuleDecode;
    RowDecides(model, row, address);
  }

  /** Below a block's base lies nothing a register number uses. */
  lemma Aligned(base: nat, k: nat)
    requires base % 0x100 == 0 && k < 0x100
    ensures Block(base + k) == base
    ensures (base + k) % 16 == k % 16 && (base + k) / 2 % 16 == k / 2 % 16
    ensures (base + k) % 2 == k % 2 && (base + k) % 64 == k % 64 && (base + k) / 2 % 8 == k / 2 % 8
  {
    var b := base / 0x100;
    Division(base + k, 0x100, b, k);
    Multiple(16 * b, 16, k);
    Multiple(128 * b, 2, k);
    Multiple(4 * b, 64, k);
    Division(base + k, 2, 128 * b + k / 2, k % 2);
    Multiple(8 * b, 16, k / 2);
    Multiple(16 * b, 8, k / 2);
  }

  lemma Multiple(a: nat, m: nat, k: nat)
    requires m > 0
    ensures (m * a + k) % m == k % m
  {
    assert m * (a + k / m) == m * a + m * (k / m);
    Division(m * a + k, m, a + k / m, k % m);
  }

  lemma Same(base: nat, canonical: nat, k: nat)
    requires base % 0x100 == canonical % 0x100 == 0 && k < 0x100
    ensures Block(canonical + k) == canonical
    ensures (base + k) % 16 == (canonical + k) % 16 && (base + k) / 2 % 16 == (canonical + k) / 2 % 16
    ensures (base + k) % 2 == (canonical + k) % 2 && (base + k) % 64 == (canonical + k) % 64
    ensures (base + k) / 2 % 8 == (canonical + k) / 2 % 8
  {
    Aligned(base, k);
    Aligned(canonical, k);
  }

  /** A block of serial ports, wherever a board puts it. */
  lemma SerialBlock(model: Model, row: Row, address: long)
    requires row in Rows(model) && Hits(row, address)
    requires row.region == Sio && row.canonical == 0x10400 && row.base % 0x100 == 0 && row.size <= 0x200
    ensures Reached(model, address) ==
            Some(Register(if address < row.base + 0x100 then 0 else 1, address / 2 % 16))
  {
    ReachedThrough(model, row, address);
    SerialDecode(row.base, address - row.base);
    hide Reached, Rows, SioDecode;
  }

  lemma SerialDecode(base: nat, k: nat)
    requires base % 0x100 == 0 && k < 0x200
    ensures SioDecode(0x10400 + k) == Some(Register(if k < 0x100 then 0 else 1, (base + k) / 2 % 16))
  {
    hide Block;
    if k < 0x100 { Same(base, 0x10400, k); } else { Same(base + 0x100, 0x10500, k - 0x100); }
  }

  /** A block of DMA controllers: byte registers, then word registers. */
  lemma DmaBlock(model: Model, row: Row, address: long)
    requires row in Rows(model) && Hits(row, address)
    requires row.region == Dma && row.canonical == 0x10C00 && row.base % 0x100 == 0 && row.size <= 0x200
    ensures Reached(model, address) ==
            Some(if address < row.base + 0x100 then Register(0, address % 16) else Register(1, address / 2 % 16))
  {
    ReachedThrough(model, row, address);
    DmaOffset(row.base, address - row.base);
    hide Reached, Rows, DmaDecode;
  }

  lemma DmaOffset(base: nat, k: nat)
    requires base % 0x100 == 0 && k < 0x200
    ensures DmaDecode(0x10C00 + k) ==
            Some(if k < 0x100 then Register(0, (base + k) % 16) else Register(1, (base + k) / 2 % 16))
  {
    hide Block;
    if k < 0x100 { Same(base, 0x10C00, k); } else { Same(base + 0x100, 0x10D00, k - 0x100); }
  }

  lemma SerialRows(k: nat)
    ensures k < 4 ==> There(0x8400 + 0x100 * k, 0x100, Sio, 0x10400) in Rows(Ds3000)
    ensures Here(0x10400, 0x200, Sio) in Rows(Series4000) && There(0x20400, 0x200, Sio, 0x10400) in Rows(Ds2500)
  {
    assert k < 4 ==> Rows(Ds3000)[3 + k] == There(0x8400 + 0x100 * k, 0x100, Sio, 0x10400);
    assert Rows(Series4000)[5] == Here(0x10400, 0x200, Sio);
    assert Rows(Ds2500)[3] == There(0x20400, 0x200, Sio, 0x10400);
  }

  /** A DS3000 has one serial part, seen four times over; the others have two, side by
      side. */
  lemma SerialPorts(address: long)
    ensures 0x8400 <= address < 0x8800 ==> Reached(Ds3000, address) == Some(Register(0, address / 2 % 16))
    ensures 0x10400 <= address < 0x10600 ==>
            Reached(Series4000, address) == Some(Register(if address < 0x10500 then 0 else 1, address / 2 % 16))
    ensures 0x20400 <= address < 0x20600 ==>
            Reached(Ds2500, address) == Some(Register(if address < 0x20500 then 0 else 1, address / 2 % 16))
  {
    hide Reached, Rows;
    var k := if 0x8400 <= address < 0x8800 then (address - 0x8400) / 0x100 else 0;
    SerialRows(k);
    if 0x8400 <= address < 0x8800 {
      SerialBlock(Ds3000, There(0x8400 + 0x100 * k, 0x100, Sio, 0x10400), address);
    } else if 0x10400 <= address < 0x10600 {
      SerialBlock(Series4000, Here(0x10400, 0x200, Sio), address);
    } else if 0x20400 <= address < 0x20600 {
      SerialBlock(Ds2500, There(0x20400, 0x200, Sio, 0x10400), address);
    }
  }

  lemma DmaRows()
    ensures There(0x9000, 0x200, Dma, 0x10C00) in Rows(Ds3000) && Here(0x10C00, 0x200, Dma) in Rows(Series4000)
    ensures There(0x20C00, 0x200, Dma, 0x10C00) in Rows(Ds2500)
  {
    assert Rows(Ds3000)[9] == There(0x9000, 0x200, Dma, 0x10C00);
    assert Rows(Series4000)[8] == Here(0x10C00, 0x200, Dma);
    assert Rows(Ds2500)[5] == There(0x20C00, 0x200, Dma, 0x10C00);
  }

  /** A DMA controller's register by its address, the two controllers from `base`. */
  function DmaTarget(base: nat, address: nat): Target {
    if address < base + 0x100 then Register(0, address % 16) else Register(1, address / 2 % 16)
  }

  /** The DMA controllers, wherever the board puts them. */
  lemma DmaControllers(address: long)
    ensures 0x9000 <= address < 0x9200 ==> Reached(Ds3000, address) == Some(DmaTarget(0x9000, address))
    ensures 0x10C00 <= address < 0x10E00 ==> Reached(Series4000, address) == Some(DmaTarget(0x10C00, address))
    ensures 0x20C00 <= address < 0x20E00 ==> Reached(Ds2500, address) == Some(DmaTarget(0x20C00, address))
  {
    DmaRows();
    hide Reached, Rows;
    if 0x9000 <= address < 0x9200 {
      DmaBlock(Ds3000, There(0x9000, 0x200, Dma, 0x10C00), address);
    } else if 0x10C00 <= address < 0x10E00 {
      DmaBlock(Series4000, Here(0x10C00, 0x200, Dma), address);
    } else if 0x20C00 <= address < 0x20E00 {
      DmaBlock(Ds2500, There(0x20C00, 0x200, Dma, 0x10C00), address);
    }
  }

  /** The row of a DS3000's other devices that holds `address`. */
  function MovedRow(address: long): Row
    requires Moved(address)
  {
    if address < 0x8200 then There(0x8000, 0x200, CoreRegister, 0x10000)
    else if address < 0x8900 then There(0x8800, 0x100, Timer, 0x10800)
    else if address < 0x8A00 then There(0x8900, 0x100, Calendar, 0x10900)
    else if address < 0x9400 then There(0x9300, 0x100, CoreRegister, 0x11300)
    else if address < 0x9600 then There(0x9400, 0x200, Interrupt, 0x11000)
    else There(0x9600, 0x100, NodeId, 0x11200)
  }

  predicate Moved(address: long) {
    0x8000 <= address < 0x8200 || 0x8800 <= address < 0x8A00 || 0x9300 <= address < 0x9700
  }

  lemma MovedRows(address: long)
    requires Moved(address)
    ensures MovedRow(address) in Rows(Ds3000) && Hits(MovedRow(address), address)
  {
    var t := Rows(Ds3000);
    assert t[1] == There(0x8000, 0x200, CoreRegister, 0x10000) && t[2] == There(0x9300, 0x100, CoreRegister, 0x11300);
    assert t[7] == There(0x8800, 0x100, Timer, 0x10800) && t[8] == There(0x8900, 0x100, Calendar, 0x10900);
    assert t[11] == There(0x9400, 0x200, Interrupt, 0x11000) && t[12] == There(0x9600, 0x100, NodeId, 0x11200);
  }

  /** What a DS3000's other devices are asked for: status and control, the parity latch,
      the timer on its odd bytes, the calendar, the interrupt controllers, the node ID on
      its even bytes. */
  function MovedTo(address: long): Target
    requires Moved(address)
  {
    if address < 0x8200 then Register(0, (address - 0x8000) / 0x100)
    else if address < 0x8900 then if address % 2 == 0 then Idle else Register(0, address / 2 % 8)
    else if address < 0x8A00 then Register(0, address % 64)
    else if address < 0x9400 then Register(0, 4)
    else if address < 0x9600 then Register((address - 0x9400) / 0x100, address % 2)
    else if address % 2 == 1 then Idle
    else Register(0, address / 2 % 16)
  }

  lemma MovedDevices(address: long)
    requires Moved(address)
    ensures Reached(Ds3000, address) == Some(MovedTo(address))
  {
    MovedRows(address);
    ReachedThrough(Ds3000, MovedRow(address), address);
    hide Reached, Rows;
    MovedDecode(address);
    hide ModuleDecode;
  }

  lemma MovedDecode(address: long)
    requires Moved(address)
    ensures var row := MovedRow(address);
            && row.base <= address
            && ModuleDecode(row.region, row.canonical + (address - row.base)) == Some(MovedTo(address))
  {
    hide Block;
    var base, canonical := MovedRow(address).base, MovedRow(address).canonical;
    var k := address - base;
    if k < 0x100 { Same(base, canonical, k); } else { Same(base + 0x100, canonical + 0x100, k - 0x100); }
    if MovedRow(address).region == CoreRegister { CoreBlock(canonical + k); }
    hide CoreDecode;
  }

  lemma CoreBlock(c: long)
    ensures CoreDecode(c) == match Block(c)
                             case 0x10000 => Some(Register(0, 0))
                             case 0x10100 => Some(Register(0, 1))
                             case 0x11300 => Some(Register(0, 4))
                             case _ => CoreDecode(c)
  {
  }
}

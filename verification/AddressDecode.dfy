/**
 * The physical address decode of the five board maps: one row per placement, first
 * match wins, with main memory asked about ahead of the table it logically follows.
 */
module AddressDecode {
  import opened Words

  datatype Region =
    | Unmapped | Prom | CoreRegister | Sio | Timer | Calendar | Dma | Interrupt | NodeId | TranslationMap
    | DmaPage | Disk | Tape | Scsi | Graphics | Ring | Ethernet | Matrox | AtBus | S2500Control
    | DesktopVisualization | CacheRam | CacheCcRam | Ds5500Block | IoProtectionMap | Ram

  datatype Row = Row(base: long, size: long, region: Region, canonical: long)

  /** Where an address fell, and the address the device behind it expects. */
  datatype Place = Nowhere | At(region: Region, canonical: int)

  predicate Hits(row: Row, address: long) {
    row.base <= address < row.base as int + row.size as int
  }

  function PlaceIn(row: Row, address: long): Place {
    At(row.region, row.canonical as int + (address as int - row.base as int))
  }

  /** The answer of the first row that matches. */
  function FirstMatch(rows: seq<Row>, address: long): Place {
    if rows == [] then Nowhere
    else if Hits(rows[0], address) then PlaceIn(rows[0], address)
    else FirstMatch(rows[1..], address)
  }

  /** The scan of the placement table, then of a variant's own rows. */
  method Locate(placement: seq<Row>, extra: seq<Row>, address: long) returns (found: Place)
    ensures found == FirstMatch(placement + extra, address)
  {
    var rows := placement + extra;
    for i := 0 to |placement|
      invariant FirstMatch(rows, address) == FirstMatch(rows[i..], address)
    {
      assert rows[i..][1..] == rows[i + 1..] && rows[i] == placement[i];
      if Hits(placement[i], address) {
        return PlaceIn(placement[i], address);
      }
    }
    for i := 0 to |extra|
      invariant FirstMatch(rows, address) == FirstMatch(rows[|placement| + i..], address)
    {
      assert rows[|placement| + i..][1..] == rows[|placement| + i + 1..] && rows[|placement| + i] == extra[i];
      if Hits(extra[i], address) {
        return PlaceIn(extra[i], address);
      }
    }
    return Nowhere;
  }

  // ----- when the order of the tests matters ------------------------------------------

  /** Rows that match a common address say the same about it. */
  ghost predicate Compatible(rows: seq<Row>) {
    forall i, j, address: long ::
      0 <= i < j < |rows| && Hits(rows[i], address) && Hits(rows[j], address) ==>
      PlaceIn(rows[i], address) == PlaceIn(rows[j], address)
  }

  /** No order of the tests can be told from the one given. */
  ghost predicate OrderInvisible(rows: seq<Row>) {
    forall order: seq<Row>, address: long ::
      multiset(order) == multiset(rows) ==> FirstMatch(order, address) == FirstMatch(rows, address)
  }

  lemma {:induction false} MatchIsSome(rows: seq<Row>, address: long)
    ensures FirstMatch(rows, address) == Nowhere <==> forall r :: r in rows ==> !Hits(r, address)
    ensures FirstMatch(rows, address) != Nowhere ==>
            exists i :: 0 <= i < |rows| && Hits(rows[i], address)
                && FirstMatch(rows, address) == PlaceIn(rows[i], address)
  {
    if rows != [] && !Hits(rows[0], address) {
      MatchIsSome(rows[1..], address);
      assert rows == [rows[0]] + rows[1..];
      if FirstMatch(rows, address) != Nowhere {
        var i :| 0 <= i < |rows[1..]| && Hits(rows[1..][i], address)
            && FirstMatch(rows, address) == PlaceIn(rows[1..][i], address);
        assert rows[i + 1] == rows[1..][i];
      }
    }
  }

  lemma AnyMatch(rows: seq<Row>, r: Row, address: long)
    requires Compatible(rows) && r in rows && Hits(r, address)
    ensures FirstMatch(rows, address) == PlaceIn(r, address)
  {
  }

  lemma SameRows(a: seq<Row>, b: seq<Row>, r: Row)
    requires multiset(a) == multiset(b)
    ensures r in a <==> r in b
  {
    assert r in a <==> r in multiset(a);
    assert r in b <==> r in multiset(b);
  }

  /** The tests may be made in any order exactly when rows that overlap agree. */
  lemma OrderInvisibleIff(rows: seq<Row>)
    ensures OrderInvisible(rows) <==> Compatible(rows)
  {
    if Compatible(rows) {
      forall order: seq<Row>, address: long | multiset(order) == multiset(rows)
        ensures FirstMatch(order, address) == FirstMatch(rows, address)
      {
        MatchIsSome(order, address);
        MatchIsSome(rows, address);
        if FirstMatch(order, address) == Nowhere {
          forall r | r in rows ensures !Hits(r, address) { SameRows(order, rows, r); }
        } else {
          var i :| 0 <= i < |order| && Hits(order[i], address)
              && FirstMatch(order, address) == PlaceIn(order[i], address);
          SameRows(order, rows, order[i]);
          AnyMatch(rows, order[i], address);
        }
      }
    }
    if OrderInvisible(rows) {
      forall i, j, address: long | 0 <= i < j < |rows| && Hits(rows[i], address) && Hits(rows[j], address)
        ensures PlaceIn(rows[i], address) == PlaceIn(rows[j], address)
      {
        ToFront(rows, i);
        ToFront(rows, j);
        assert FirstMatch([rows[i]] + rows[..i] + rows[i + 1..], address) == PlaceIn(rows[i], address);
        assert FirstMatch([rows[j]] + rows[..j] + rows[j + 1..], address) == PlaceIn(rows[j], address);
      }
    }
  }

  lemma ToFront(rows: seq<Row>, i: nat)
    requires i < |rows|
    ensures multiset([rows[i]] + rows[..i] + rows[i + 1..]) == multiset(rows)
  {
    assert rows == rows[..i] + [rows[i]] + rows[i + 1..];
  }

  predicate Apart(a: Row, b: Row) {
    a.base as int + a.size as int <= b.base || b.base as int + b.size as int <= a.base
  }

  ghost predicate AllApart(rows: seq<Row>) {
    forall i, j :: 0 <= i < j < |rows| ==> Apart(rows[i], rows[j])
  }

  ghost predicate ApartBetween(a: seq<Row>, b: seq<Row>) {
    forall i, j :: 0 <= i < |a| && 0 <= j < |b| ==> Apart(a[i], b[j])
  }

  lemma ApartIsCompatible(rows: seq<Row>)
    requires AllApart(rows)
    ensures Compatible(rows)
  {
  }

  // ----- the five maps -------------------------------------------------------------------

  datatype Model = Series4000 | Ds4000 | Ds5500 | Ds3000 | Ds2500

  /** Rows whose device is addressed where it stands. */
  function Here(base: long, size: long, region: Region): Row { Row(base, size, region, base) }

  /** Rows another map addresses elsewhere. */
  function There(base: long, size: long, region: Region, canonical: long): Row { Row(base, size, region, canonical) }

  function Series4000Rows(): seq<Row> {
    [Here(0x0, 0x10000, Prom), Here(0x10000, 0x400, CoreRegister), Here(0x11300, 0x100, CoreRegister),
     Here(0x11600, 0x100, CoreRegister), Here(0x16400, 0x100, CoreRegister), Here(0x10400, 0x200, Sio),
     Here(0x10800, 0x100, Timer), Here(0x10900, 0x100, Calendar), Here(0x10C00, 0x200, Dma),
     Here(0x11000, 0x200, Interrupt), Here(0x11200, 0x100, NodeId), Here(0x17000, 0x800, TranslationMap),
     Here(0x4D000, 0x400, Disk), Here(0x5F800, 0x400, Disk), Here(0x50000, 0x100, Tape)]
  }

  function CacheRows(): seq<Row> {
    [Here(0x12000, 0x2000, CacheRam), Here(0x14000, 0x2000, CacheCcRam)]
  }

  function Ds5500Rows(): seq<Row> {
    [Here(0x0, 0x10000, Prom), Here(0x10000, 0x300, CoreRegister), Here(0x11300, 0x100, CoreRegister),
     Here(0x11400, 0x100, CoreRegister), Here(0x11600, 0x100, CoreRegister), Here(0x16400, 0x100, CoreRegister),
     Here(0x10400, 0x200, Sio), Here(0x10800, 0x100, Timer), Here(0x10900, 0x100, Calendar),
     Here(0x10C00, 0x200, Dma), Here(0x11000, 0x200, Interrupt), Here(0x11200, 0x100, NodeId),
     Here(0x17000, 0x1000, TranslationMap), Here(0x4D000, 0x400, Disk), Here(0x5F800, 0x400, Disk),
     Here(0x50000, 0x100, Tape), Here(0x11500, 0x100, Ds5500Block), Here(0x700_0000, 0x10000, IoProtectionMap),
     Here(0xF800_0000, 0x600_0000, DesktopVisualization)]
  }

  function Ds3000Rows(): seq<Row> {
    [There(0x0, 0x8000, Prom, 0x0), There(0x8000, 0x200, CoreRegister, 0x10000),
     There(0x9300, 0x100, CoreRegister, 0x11300),
     There(0x8400, 0x100, Sio, 0x10400), There(0x8500, 0x100, Sio, 0x10400), There(0x8600, 0x100, Sio, 0x10400),
     There(0x8700, 0x100, Sio, 0x10400), There(0x8800, 0x100, Timer, 0x10800), There(0x8900, 0x100, Calendar, 0x10900),
     There(0x9000, 0x200, Dma, 0x10C00), There(0x9200, 0x100, DmaPage, 0x9200),
     There(0x9400, 0x200, Interrupt, 0x11000),
     There(0x9600, 0x100, NodeId, 0x11200), Here(0x4D000, 0x400, Disk), Here(0x5F800, 0x400, Disk),
     Here(0x50000, 0x100, Tape)]
  }

  function Ds2500Rows(): seq<Row> {
    [There(0x0, 0x20000, Prom, 0x0), There(0x20000, 0x200, CoreRegister, 0x10000), Here(0x20200, 0x100, S2500Control),
     There(0x20400, 0x200, Sio, 0x10400), There(0x20800, 0x100, Timer, 0x10800), There(0x20C00, 0x200, Dma, 0x10C00)]
  }

  function Placement(model: Model): seq<Row> {
    match model
    case Series4000 => Series4000Rows()
    case Ds4000 => Series4000Rows()
    case Ds5500 => Ds5500Rows()
    case Ds3000 => Ds3000Rows()
    case Ds2500 => Ds2500Rows()
  }

  function ExtraPlacement(model: Model): seq<Row> {
    if model == Ds4000 then CacheRows() else []
  }

  function RamBase(model: Model): long {
    match model
    case Ds3000 => 0x10_0000
    case Ds2500 => 0x400_0000
    case _ => 0x100_0000
  }

  function RamLimit(model: Model): long {
    match model
    case Ds5500 => 0x4FF_FFFF
    case Ds3000 => 0x8F_FFFF
    case Ds2500 => 0x4FF_FFFF
    case _ => 0x2FF_FFFF
  }

  /** The DS3000 ignores the five high-order address bits; the others use them all. */
  function Seen(model: Model, address: long): long {
    if model == Ds3000 then address % 0x800_0000 else address
  }

  predicate IsRam(model: Model, address: long) {
    RamBase(model) <= address <= RamLimit(model)
  }

  function RamRow(model: Model): Row {
    Here(RamBase(model), RamLimit(model) - RamBase(model) + 1, Ram)
  }

  function GraphicsRows(): seq<Row> {
    [Here(0x5D800, 0x408, Graphics), Here(0x5E800, 0x408, Graphics),
     Here(0xA0000, 0x20000, Graphics), Here(0xFA0000, 0x40000, Graphics)]
  }

  /** Cards that may or may not be in their slots. */
  datatype Fitted = Fitted(scsi: bool, ring: bool, ethernet: bool, matrox: bool)

  /** The fitted cards' windows, which lie inside the AT bus windows. */
  function CardAt(fit: Fitted, address: long): Region {
    if fit.ring && (0x51000 <= address < 0x53000 || 0x59000 <= address < 0x5B000) then Ring
    else if fit.ethernet && 0x58000 <= address < 0x58010 then Ethernet
    else if fit.matrox && (0x90_0000 <= address < 0x94_0000 || 0xD4_0000 <= address < 0xD4_0010
                           || 0xD8_0000 <= address < 0xD8_0010 || 0xDA_0000 <= address < 0xDA_0010) then Matrox
    else Unmapped
  }

  predicate InAtWindow(address: long) {
    0x4_0000 <= address <= 0x5_FFFF || 0x8_0000 <= address <= 0xFF_FFFF
  }

  function Windows(fit: Fitted, address: long): Region {
    if CardAt(fit, address) != Unmapped then CardAt(fit, address)
    else if InAtWindow(address) then AtBus
    else Unmapped
  }

  function Substituted(fit: Fitted, region: Region): Region {
    if region == Tape && fit.scsi then Scsi else region
  }

  /** Which region an address belongs to: main memory is asked about first, then the
      model's table, the graphics windows, the fitted cards and the AT bus. */
  function RegionOf(model: Model, fit: Fitted, address: long): Region {
    var a := Seen(model, address);
    if IsRam(model, a) then Ram
    else
      var placed := FirstMatch(Placement(model) + ExtraPlacement(model), a);
      if placed.At? then Substituted(fit, placed.region)
      else if FirstMatch(GraphicsRows(), a).At? then Graphics
      else Windows(fit, a)
  }

  /** Everything the table part of the decode tests. */
  function Tested(model: Model): seq<Row> {
    [RamRow(model)] + Placement(model) + ExtraPlacement(model) + GraphicsRows()
  }

  lemma ApartJoin(a: seq<Row>, b: seq<Row>)
    requires AllApart(a) && AllApart(b) && ApartBetween(a, b)
    ensures AllApart(a + b)
  {
  }

  lemma Series4000Pair(i: nat, j: nat)
    requires i < j < |Series4000Rows()|
    ensures Apart(Series4000Rows()[i], Series4000Rows()[j])
  {
  }

  lemma Series4000Apart()
    ensures AllApart(Series4000Rows())
  {
    hide Series4000Rows;
    forall i, j | 0 <= i < j < |Series4000Rows()| ensures Apart(Series4000Rows()[i], Series4000Rows()[j]) {
      Series4000Pair(i, j);
    }
  }

  lemma Series4000MeetsNothing()
    ensures ApartBetween(Series4000Rows(), GraphicsRows()) && ApartBetween([RamRow(Series4000)], Series4000Rows())
  {
  }

  lemma Ds5500Pair(i: nat, j: nat)
    requires i < j < |Ds5500Rows()|
    ensures Apart(Ds5500Rows()[i], Ds5500Rows()[j])
  {
  }

  lemma Ds5500Apart()
    ensures AllApart(Ds5500Rows())
  {
    hide Ds5500Rows;
    forall i, j | 0 <= i < j < |Ds5500Rows()| ensures Apart(Ds5500Rows()[i], Ds5500Rows()[j]) {
      Ds5500Pair(i, j);
    }
  }

  lemma Ds5500MeetsNothing()
    ensures ApartBetween(Ds5500Rows(), GraphicsRows()) && ApartBetween([RamRow(Ds5500)], Ds5500Rows())
  {
  }

  lemma Ds3000Pair(i: nat, j: nat)
    requires i < j < |Ds3000Rows()|
    ensures Apart(Ds3000Rows()[i], Ds3000Rows()[j])
  {
  }

  lemma Ds3000Apart()
    ensures AllApart(Ds3000Rows())
  {
    hide Ds3000Rows;
    forall i, j | 0 <= i < j < |Ds3000Rows()| ensures Apart(Ds3000Rows()[i], Ds3000Rows()[j]) {
      Ds3000Pair(i, j);
    }
  }

  lemma Ds3000MeetsNothing()
    ensures ApartBetween(Ds3000Rows(), GraphicsRows()) && ApartBetween([RamRow(Ds3000)], Ds3000Rows())
  {
  }

  lemma Ds2500Apart()
    ensures AllApart(Ds2500Rows())
  {
  }

  lemma Ds2500MeetsNothing()
    ensures ApartBetween(Ds2500Rows(), GraphicsRows()) && ApartBetween([RamRow(Ds2500)], Ds2500Rows())
  {
  }

  lemma CacheApart()
    ensures AllApart(CacheRows()) && ApartBetween(Series4000Rows(), CacheRows())
            && ApartBetween(CacheRows(), GraphicsRows())
    ensures ApartBetween([RamRow(Ds4000)], CacheRows())
  {
  }

  lemma GraphicsApart(model: Model)
    ensures AllApart(GraphicsRows()) && ApartBetween([RamRow(model)], GraphicsRows())
  {
  }

  lemma TablesApart(model: Model)
    ensures AllApart(Placement(model)) && AllApart(ExtraPlacement(model)) && AllApart(GraphicsRows())
    ensures ApartBetween(Placement(model), ExtraPlacement(model))
    ensures ApartBetween(Placement(model), GraphicsRows()) && ApartBetween(ExtraPlacement(model), GraphicsRows())
    ensures ApartBetween([RamRow(model)], Placement(model)) && ApartBetween([RamRow(model)], ExtraPlacement(model))
    ensures ApartBetween([RamRow(model)], GraphicsRows())
  {
    Series4000Apart();
    Series4000MeetsNothing();
    Ds5500Apart();
    Ds5500MeetsNothing();
    Ds3000Apart();
    Ds3000MeetsNothing();
    Ds2500Apart();
    Ds2500MeetsNothing();
    CacheApart();
    GraphicsApart(model);
    assert RamRow(Ds4000) == RamRow(Series4000);
    hide Series4000Rows, Ds5500Rows, Ds3000Rows, Ds2500Rows, CacheRows, GraphicsRows;
  }

  /** Main memory is 32 megabytes on the Series 4000, 64 on a DS5500, 8 on a DS3000 and 16
      on a DS2500, from a whole megabyte; and the AT bus is selected by the address bits
      above its 128-kilobyte blocks. */
  lemma WholeBlocks(model: Model, address: long)
    ensures var size := RamLimit(model) as int - RamBase(model) as int + 1;
            && size == 0x10_0000 * (match model case Ds5500 => 64 case Ds3000 => 8 case Ds2500 => 16 case _ => 32)
            && RamBase(model) % 0x10_0000 == 0 && (model != Ds3000 ==> RamBase(model) % 0x100_0000 == 0)
    ensures InAtWindow(address) <==> address / 0x2_0000 == 2 || 4 <= address / 0x2_0000 < 0x80
  {
  }

  predicate IsBlocks(row: Row) {
    row.base % 0x100 == 0 && row.size % 0x100 == 0 && row.canonical % 0x100 == 0 && row.size > 0
  }

  lemma BlocksIn(i: nat)
    ensures i < |Series4000Rows()| ==> IsBlocks(Series4000Rows()[i])
    ensures i < |Ds5500Rows()| ==> IsBlocks(Ds5500Rows()[i])
    ensures i < |Ds2500Rows()| ==> IsBlocks(Ds2500Rows()[i])
    ensures i < |CacheRows()| ==> IsBlocks(CacheRows()[i])
  {
  }

  lemma Ds3000Blocks(i: nat)
    requires i < |Ds3000Rows()|
    ensures IsBlocks(Ds3000Rows()[i])
  {
  }

  /** Every placement is whole 256-byte blocks, in the machine's space and the device's. */
  lemma RowsAreBlocks(model: Model, i: nat)
    requires i < |Placement(model) + ExtraPlacement(model)|
    ensures IsBlocks((Placement(model) + ExtraPlacement(model))[i])
  {
    hide IsBlocks, Series4000Rows, Ds5500Rows, Ds3000Rows, Ds2500Rows, CacheRows;
    if i < |Placement(model)| {
      if model == Ds3000 { Ds3000Blocks(i); } else { BlocksIn(i); }
    } else {
      BlocksIn(i - |Placement(model)|);
    }
  }

  lemma BetweenJoin(a: seq<Row>, b: seq<Row>, c: seq<Row>)
    ensures ApartBetween(a, c) && ApartBetween(b, c) ==> ApartBetween(a + b, c)
    ensures ApartBetween(c, a) && ApartBetween(c, b) ==> ApartBetween(c, a + b)
  {
  }

  /** No two rows of any board's map overlap, memory and graphics windows included. */
  lemma MapsAreApart(model: Model)
    ensures AllApart(Tested(model))
  {
    TablesApart(model);
    hide Placement, ExtraPlacement, GraphicsRows, RamRow;
    var ram, table, extra, screens := [RamRow(model)], Placement(model), ExtraPlacement(model), GraphicsRows();
    BetweenJoin(table, extra, screens);
    BetweenJoin(table, extra, ram);
    BetweenJoin(table + extra, screens, ram);
    ApartJoin(table, extra);
    ApartJoin(table + extra, screens);
    ApartJoin(ram, table + extra + screens);
    assert Tested(model) == ram + (table + extra + screens);
  }

  /** Yet not everything the memory test passes over lies below memory: a DS5500 has a
      placement above it and a DS3000 a graphics window. */
  lemma SomeLieAbove() returns (row: Row, window: Row)
    ensures row in Placement(Ds5500) && row.base > RamLimit(Ds5500)
    ensures window in GraphicsRows() && window.base > RamLimit(Ds3000)
  {
    row, window := Placement(Ds5500)[17], GraphicsRows()[3];
  }

  /** On every board the memory test, the table, a variant's rows and the graphics
      decodes may be made in any order at all. */
  lemma TestsCommute(model: Model, order: seq<Row>, address: long)
    requires multiset(order) == multiset(Tested(model))
    ensures FirstMatch(order, address) == FirstMatch(Tested(model), address)
  {
    MapsAreApart(model);
    ApartIsCompatible(Tested(model));
    OrderInvisibleIff(Tested(model));
  }

  lemma {:induction false} MatchConcat(a: seq<Row>, b: seq<Row>, address: long)
    ensures FirstMatch(a + b, address) ==
            if FirstMatch(a, address).At? then FirstMatch(a, address) else FirstMatch(b, address)
  {
    if a == [] {
      assert a + b == b;
    } else {
      MatchConcat(a[1..], b, address);
      assert (a + b)[1..] == a[1..] + b;
    }
  }

  lemma ScreenRegion(address: long)
    ensures FirstMatch(GraphicsRows(), address).At? ==> FirstMatch(GraphicsRows(), address).region == Graphics
  {
    MatchIsSome(GraphicsRows(), address);
  }

  lemma JoinThree(row: Row, b: seq<Row>, c: seq<Row>, address: long)
    ensures FirstMatch([row] + b + c, address) ==
            if Hits(row, address) then PlaceIn(row, address)
            else if FirstMatch(b, address).At? then FirstMatch(b, address)
            else FirstMatch(c, address)
  {
    MatchConcat(b, c, address);
    assert ([row] + b + c)[1..] == b + c;
  }

  lemma TestedInTurn(model: Model, address: long)
    ensures FirstMatch(Tested(model), address) ==
            if IsRam(model, address) then At(Ram, address)
            else if FirstMatch(Placement(model) + ExtraPlacement(model), address).At?
            then FirstMatch(Placement(model) + ExtraPlacement(model), address)
            else FirstMatch(GraphicsRows(), address)
  {
    hide FirstMatch, Placement, ExtraPlacement, GraphicsRows;
    JoinThree(RamRow(model), Placement(model) + ExtraPlacement(model), GraphicsRows(), address);
    assert Tested(model) == [RamRow(model)] + (Placement(model) + ExtraPlacement(model)) + GraphicsRows();
  }

  /** What the board reports is what those tests report, in whatever order they are
      made, with the fitted cards and the AT bus behind them. */
  lemma RegionIsOrderFree(model: Model, fit: Fitted, order: seq<Row>, address: long)
    requires multiset(order) == multiset(Tested(model))
    ensures var found := FirstMatch(order, Seen(model, address));
            RegionOf(model, fit, address) ==
            if found.At? then Substituted(fit, found.region) else Windows(fit, Seen(model, address))
  {
    hide FirstMatch, Tested, Placement, ExtraPlacement, GraphicsRows, RamRow, Windows;
    var a := Seen(model, address);
    TestsCommute(model, order, a);
    ScreenRegion(a);
    TestedInTurn(model, a);
  }

  /** Main memory is placed nowhere: the address the memory arm sees is the machine's. */
  lemma RamIsNotPlaced(model: Model, address: long)
    requires IsRam(model, address)
    ensures FirstMatch(Placement(model) + ExtraPlacement(model), address) == Nowhere
  {
    TablesApart(model);
    hide Placement, ExtraPlacement, GraphicsRows;
    var table, ram := Placement(model) + ExtraPlacement(model), [RamRow(model)];
    BetweenJoin(Placement(model), ExtraPlacement(model), ram);
    MatchIsSome(table, address);
    forall r | r in table ensures !Hits(r, address) {
      var k :| 0 <= k < |table| && table[k] == r;
      assert Apart(ram[0], table[k]);
    }
  }

  // ----- how far the memory test could move -----------------------------------------------

  /** The decode with memory asked about after the fitted cards, or last of all. */
  function RegionRamLater(model: Model, fit: Fitted, address: long, last: bool): Region {
    var a := Seen(model, address);
    var placed := FirstMatch(Placement(model) + ExtraPlacement(model), a);
    if placed.At? then Substituted(fit, placed.region)
    else if FirstMatch(GraphicsRows(), a).At? then Graphics
    else if CardAt(fit, a) != Unmapped then CardAt(fit, a)
    else if !last && IsRam(model, a) then Ram
    else if InAtWindow(a) then AtBus
    else if IsRam(model, a) then Ram
    else Unmapped
  }

  lemma RamIsNotGraphics(model: Model, address: long)
    requires IsRam(model, address)
    ensures FirstMatch(GraphicsRows(), address) == Nowhere
            && CardAt(Fitted(true, true, true, true), address) == Unmapped
  {
    var g := GraphicsRows();
    assert forall i :: 0 <= i < |g| ==> !Hits(g[i], address);
    MatchIsSome(g, address);
  }

  /** Memory may be asked about after every fitted card; asked about last, the answer
      changes exactly on a DS3000, whose whole memory lies inside the AT memory window. */
  lemma RamLaterIff(model: Model, fit: Fitted, address: long, last: bool)
    ensures RegionRamLater(model, fit, address, last) == RegionOf(model, fit, address) <==>
            !(last && model == Ds3000 && IsRam(model, Seen(model, address)))
  {
    var a := Seen(model, address);
    if IsRam(model, a) {
      RamIsNotPlaced(model, a);
      RamIsNotGraphics(model, a);
      hide FirstMatch, Placement, ExtraPlacement, GraphicsRows;
      assert InAtWindow(a) <==> model == Ds3000;
    }
  }

  // ----- the word-wide ports ----------------------------------------------------------------

  /** The addresses a word-wide cycle of the fixed disk's data port or the display's
      memories can take instead of the byte cycles. */
  predicate IsWordPort(address: long) {
    (0x4D000 <= address < 0x4D400 && (address - 0x4D000) % 4 == 0)
    || 0xA0000 <= address <= 0xBFFFF || 0xFA0000 <= address <= 0xFDFFFF
  }

  /** An access that begins in main memory never takes one of them, although they are
      tested on the address before its ignored bits are dropped. */
  lemma RamIsNoPort(model: Model, address: long)
    requires IsRam(model, Seen(model, address))
    ensures !IsWordPort(address)
  {
  }
}

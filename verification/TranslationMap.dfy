/**
 * The DMA address translation map, its byte-lane programming path on the board, and
 * what a DMA address means once it has been through it.
 */
module TranslationMap {
  import opened Arithmetic
  import opened Words

  const BASE: nat := 0x017000
  const MAX_ENTRIES: nat := 2048
  const NARROW_MAP: nat := 1024
  const WINDOW_FIRST: nat := 512
  const PAGE: nat := 1024
  const PHYSICAL: nat := 0x400_0000   // 26 bits

  datatype Width = Narrow | Wide | BusMaster

  /** `entries` is the machine's own count: none, 1024, or a DS5500's 2048. */
  datatype Map = Map(entries: nat, entry: seq<word>) {
    predicate Wf() {
      |entry| == MAX_ENTRIES && (entries == 0 || entries == NARROW_MAP || entries == MAX_ENTRIES)
    }
  }

  /** A DMA address selects inside the window; a bus master's indexes from zero. */
  function Index(a: long, w: Width): (i: nat)
    ensures i < NARROW_MAP
  {
    match w
    case Narrow => (WINDOW_FIRST + a / PAGE % 64) % NARROW_MAP
    case Wide => (WINDOW_FIRST + a / PAGE % 128) % NARROW_MAP
    case BusMaster => a / PAGE % 512
  }

  function Offset(a: long, w: Width): nat {
    if w == Wide then a % PAGE / 2 * 2 else a % PAGE
  }

  function Translate(m: Map, a: long, w: Width): nat
    requires m.Wf()
  {
    (m.entry[Index(a, w)] * PAGE + Offset(a, w)) % PHYSICAL
  }

  /** A 16-bit channel's register counts words, so the bus address is twice it. */
  function BusAddress(dma: word, wide: bool): long { if wide then 2 * dma else dma }

  function DmaPhysical(m: Map, dma: word, wide: bool): nat
    requires m.Wf()
  {
    Translate(m, BusAddress(dma, wide), if wide then Wide else Narrow)
  }

  /** The window page a DMA address falls in. */
  function PageOf(dma: word, wide: bool): (k: nat)
    ensures k < Pages(wide)
  {
    BusAddress(dma, wide) / PAGE
  }

  function Pages(wide: bool): nat { if wide then 128 else 64 }

  /** The entry of window page `k`. */
  function Window(m: Map, k: nat): word
    requires m.Wf() && k < 128
  {
    m.entry[WINDOW_FIRST + k]
  }

  /** What a DMA address reaches, without the masks: its page's entry, its offset. */
  lemma PhysicalIs(m: Map, dma: word, wide: bool)
    requires m.Wf()
    ensures DmaPhysical(m, dma, wide) == Window(m, PageOf(dma, wide)) as nat * PAGE + BusAddress(dma, wide) % PAGE
    ensures DmaPhysical(m, dma, wide) < PHYSICAL
    ensures wide ==> DmaPhysical(m, dma, wide) % 2 == 0
  {
    hide Index, Offset, Translate, BusAddress, PageOf;
    IndexIs(dma, wide);
    TranslateIs(m, BusAddress(dma, wide), if wide then Wide else Narrow);
    if wide { EvenSum(Window(m, PageOf(dma, wide)), BusAddress(dma, wide) % PAGE); }
  }

  lemma EvenSum(e: nat, r: nat)
    ensures r % 2 == 0 ==> (e * PAGE + r) % 2 == 0
  {
  }

  /** The mask to 26 bits never bites. */
  lemma TranslateIs(m: Map, a: long, w: Width)
    requires m.Wf()
    ensures Translate(m, a, w) == m.entry[Index(a, w)] as nat * PAGE + Offset(a, w) < PHYSICAL
  {
  }

  lemma IndexIs(dma: word, wide: bool)
    ensures var a, w := BusAddress(dma, wide), if wide then Wide else Narrow;
            Index(a, w) == WINDOW_FIRST + PageOf(dma, wide) && Offset(a, w) == a % PAGE
    ensures wide ==> BusAddress(dma, wide) % PAGE % 2 == 0
  {
    Unwrapped(PageOf(dma, wide), Pages(wide));
    if wide { EvenOffset(dma); }
  }

  /** The selected page is inside the map, so neither remainder changes it. */
  lemma Unwrapped(page: nat, pages: nat)
    requires page < pages <= 128
    ensures (WINDOW_FIRST + page % pages) % NARROW_MAP == WINDOW_FIRST + page
  {
    Division(page, pages, 0, page);
  }

  lemma EvenOffset(dma: word)
    ensures 2 * dma % PAGE % 2 == 0 && 2 * dma % PAGE / 2 * 2 == 2 * dma % PAGE
  {
    assert 2 * dma % PAGE == 2 * (dma % 512);
  }

  predicate DistinctWindow(m: Map, wide: bool)
    requires m.Wf()
  {
    forall j, k :: 0 <= j < k < Pages(wide) ==> Window(m, j) != Window(m, k)
  }

  ghost predicate InjectiveDma(m: Map, wide: bool)
    requires m.Wf()
  {
    forall x: word, y: word :: x != y ==> DmaPhysical(m, x, wide) != DmaPhysical(m, y, wide)
  }

  /** The first DMA address of page `k`. */
  function PageStart(k: nat, wide: bool): word
    requires k < Pages(wide)
  {
    if wide then 512 * k else PAGE * k
  }

  /** No two DMA addresses land on one byte exactly when no two reachable entries
      name one page. */
  lemma InjectiveIffDistinct(m: Map, wide: bool)
    requires m.Wf()
    ensures InjectiveDma(m, wide) <==> DistinctWindow(m, wide)
  {
    hide DmaPhysical;
    if DistinctWindow(m, wide) {
      forall x: word, y: word | x != y
        ensures DmaPhysical(m, x, wide) != DmaPhysical(m, y, wide)
      {
        PhysicalIs(m, x, wide);
        PhysicalIs(m, y, wide);
        assert PageOf(x, wide) != PageOf(y, wide) ==> Window(m, PageOf(x, wide)) != Window(m, PageOf(y, wide));
      }
    } else {
      var j, k :| 0 <= j < k < Pages(wide) && Window(m, j) == Window(m, k);
      PhysicalIs(m, PageStart(j, wide), wide);
      PhysicalIs(m, PageStart(k, wide), wide);
      StartIs(j, wide);
      StartIs(k, wide);
      assert PageStart(j, wide) != PageStart(k, wide);
    }
  }

  lemma StartIs(k: nat, wide: bool)
    requires k < Pages(wide)
    ensures BusAddress(PageStart(k, wide), wide) == PAGE * k && PageOf(PageStart(k, wide), wide) == k
  {
  }

  predicate ConsecutiveWindow(m: Map, wide: bool)
    requires m.Wf()
  {
    forall k :: 0 <= k < Pages(wide) ==> Window(m, k) as nat == Window(m, 0) as nat + k
  }

  ghost predicate LooksContiguous(m: Map, wide: bool, base: nat)
    requires m.Wf()
  {
    forall x: word :: DmaPhysical(m, x, wide) == base + BusAddress(x, wide)
  }

  /** The whole window is one run of memory, starting at the first entry's page,
      exactly when the reachable entries are consecutive. */
  lemma ContiguousIffConsecutive(m: Map, wide: bool)
    requires m.Wf()
    ensures LooksContiguous(m, wide, Window(m, 0) as nat * PAGE) <==> ConsecutiveWindow(m, wide)
  {
    hide DmaPhysical;
    var base := Window(m, 0) as nat * PAGE;
    if ConsecutiveWindow(m, wide) {
      forall x: word
        ensures DmaPhysical(m, x, wide) == base + BusAddress(x, wide)
      {
        PhysicalIs(m, x, wide);
        assert BusAddress(x, wide) == PAGE * PageOf(x, wide) + BusAddress(x, wide) % PAGE;
      }
    }
    if LooksContiguous(m, wide, base) {
      forall k | 0 <= k < Pages(wide)
        ensures Window(m, k) as nat == Window(m, 0) as nat + k
      {
        var x := PageStart(k, wide);
        PhysicalIs(m, x, wide);
        StartIs(k, wide);
        assert DmaPhysical(m, x, wide) == base + BusAddress(x, wide);
      }
    }
  }

  // ----- programming --------------------------------------------------------------

  /** The entry a programmed byte address selects, wrapped in the machine's count. */
  function EntryOf(m: Map, address: long): (i: nat)
    requires m.Wf()
    ensures i < MAX_ENTRIES
  {
    var half := (address as int - BASE) % 0x1_0000_0000 / 2;
    if m.entries == MAX_ENTRIES then half % MAX_ENTRIES else half % NARROW_MAP
  }

  function ReadByte(m: Map, address: long): byte
    requires m.Wf()
  {
    var e := m.entry[EntryOf(m, address)];
    if address % 2 == 1 then Low(e) else High(e)
  }

  /** Read-modify-write of the addressed half; the even address is the high one. */
  function WriteByte(m: Map, address: long, v: byte): (n: Map)
    requires m.Wf()
    ensures n.Wf() && n.entries == m.entries
  {
    var i := EntryOf(m, address);
    var e := m.entry[i];
    m.(entry := m.entry[i := if address % 2 == 1 then Join(High(e), v) else Join(v, Low(e))])
  }

  /** Two byte cycles in either order store the whole page number, disturb no other
      entry, and read back lane by lane. */
  lemma ProgramEntry(m: Map, address: long, page: word)
    requires m.Wf() && address % 2 == 0 && address + 1 < 0x1_0000_0000
    ensures var highFirst := WriteByte(WriteByte(m, address, High(page)), address + 1, Low(page));
            var lowFirst := WriteByte(WriteByte(m, address + 1, Low(page)), address, High(page));
            && highFirst == lowFirst == m.(entry := m.entry[EntryOf(m, address) := page])
            && ReadByte(highFirst, address) == High(page) && ReadByte(highFirst, address + 1) == Low(page)
  {
    hide EntryOf, High, Low, Join;
    Lanes(m, address);
    Halves(page);
    var i := EntryOf(m, address);
    var a, b := WriteByte(m, address, High(page)), WriteByte(m, address + 1, Low(page));
    SameCount(m, a, address + 1);
    SameCount(m, b, address);
    var held := m.entry[i];
    Relane(High(page), Low(held));
    Relane(High(held), Low(page));
    assert a.entry == m.entry[i := Join(High(page), Low(held))];
    assert b.entry == m.entry[i := Join(High(held), Low(page))];
    assert a.entry[i := page] == b.entry[i := page] == m.entry[i := page];
    var n := m.(entry := m.entry[i := page]);
    SameCount(m, n, address);
    SameCount(m, n, address + 1);
  }

  lemma Lanes(m: Map, address: long)
    requires m.Wf() && address % 2 == 0 && address + 1 < 0x1_0000_0000
    ensures EntryOf(m, address + 1) == EntryOf(m, address)
  {
  }

  lemma SameCount(m: Map, n: Map, address: long)
    requires m.Wf() && n.Wf() && m.entries == n.entries
    ensures EntryOf(m, address) == EntryOf(n, address)
  {
  }

  /** The byte address of entry `i`. */
  function EntryAddress(i: nat): long
    requires i < MAX_ENTRIES
  {
    BASE + 2 * i
  }

  function Programmed(m: Map, i: nat, page: word): (n: Map)
    requires m.Wf() && i < MAX_ENTRIES
    ensures n.Wf()
  {
    WriteByte(WriteByte(m, EntryAddress(i), High(page)), EntryAddress(i) + 1, Low(page))
  }

  /** End to end: programming window page `k` moves exactly the DMA addresses of that
      page, to that page of memory, and no bus master's address at all. */
  lemma ProgramWindowPage(m: Map, k: nat, page: word, dma: word, wide: bool, master: long)
    requires m.Wf() && k < Pages(wide)
    ensures var n := Programmed(m, WINDOW_FIRST + k, page);
            && DmaPhysical(n, dma, wide) ==
               (if PageOf(dma, wide) == k then page as nat * PAGE + BusAddress(dma, wide) % PAGE
                else DmaPhysical(m, dma, wide))
            && Translate(n, master, BusMaster) == Translate(m, master, BusMaster)
  {
    ProgrammedIs(m, WINDOW_FIRST + k, page);
    hide Programmed, DmaPhysical, Translate, BusAddress, PageOf;
    var n := Programmed(m, WINDOW_FIRST + k, page);
    PhysicalIs(m, dma, wide);
    PhysicalIs(n, dma, wide);
    TranslateIs(m, master, BusMaster);
    TranslateIs(n, master, BusMaster);
  }

  /** And the other way: a bus master's entry is no DMA channel's. */
  lemma ProgramMasterPage(m: Map, k: nat, page: word, dma: word, wide: bool, master: long)
    requires m.Wf() && k < 512
    ensures var n := Programmed(m, k, page);
            && DmaPhysical(n, dma, wide) == DmaPhysical(m, dma, wide)
            && Translate(n, master, BusMaster) == (if master / PAGE % 512 == k then page as nat * PAGE + master % PAGE
                                                   else Translate(m, master, BusMaster))
  {
    ProgrammedIs(m, k, page);
    hide Programmed, DmaPhysical, Translate, BusAddress, PageOf;
    var n := Programmed(m, k, page);
    PhysicalIs(m, dma, wide);
    PhysicalIs(n, dma, wide);
    TranslateIs(m, master, BusMaster);
    TranslateIs(n, master, BusMaster);
  }

  /** Every entry the machine has is programmed at its own address, and no other moves. */
  lemma ProgrammedIs(m: Map, i: nat, page: word)
    requires m.Wf() && i < Count(m)
    ensures Programmed(m, i, page) == m.(entry := m.entry[i := page])
  {
    AddressSelects(m, i);
    hide WriteByte, ReadByte, EntryOf, EntryAddress;
    ProgramEntry(m, EntryAddress(i), page);
  }

  lemma AddressSelects(m: Map, i: nat)
    requires m.Wf() && i < Count(m)
    ensures EntryOf(m, EntryAddress(i)) == i
    ensures EntryAddress(i) % 2 == 0 && EntryAddress(i) + 1 < 0x1_0000_0000
  {
  }

  /** How many entries the machine has. */
  function Count(m: Map): nat { if m.entries == 0 then NARROW_MAP else m.entries }

  /** A DS5500's upper half is storage of its own; on the others it is the lower half seen
      again. */
  lemma UpperHalf(m: Map, i: nat)
    requires m.Wf() && i < NARROW_MAP
    ensures EntryOf(m, EntryAddress(NARROW_MAP + i)) == if Count(m) == MAX_ENTRIES then NARROW_MAP + i else i
  {
  }

  // ----- the object ----------------------------------------------------------------

  class AtMap {
    const entry: array<word>
    var entries: nat

    ghost function View(): Map
      reads this, entry
    {
      Map(entries, entry[..])
    }

    /** More than the storage is clipped to it. */
    constructor (entries: nat)
      requires entries == 0 || entries == NARROW_MAP || entries >= MAX_ENTRIES
      ensures View().Wf() && fresh(entry)
      ensures this.entries == (if entries > MAX_ENTRIES then MAX_ENTRIES else entries)
      ensures forall i :: 0 <= i < MAX_ENTRIES ==> entry[i] == 0
    {
      entry := new word[MAX_ENTRIES](i => 0);
      this.entries := if entries > MAX_ENTRIES then MAX_ENTRIES else entries;
    }

    method Write(address: long, v: word)
      requires View().Wf()
      modifies entry
      ensures View() == old(View()).(entry := old(entry[..])[EntryOf(old(View()), address) := v])
    {
      entry[EntryIndex(address)] := v;
    }

    method Read(address: long) returns (v: word)
      requires View().Wf()
      ensures v == View().entry[EntryOf(View(), address)]
    {
      v := entry[EntryIndex(address)];
    }

    function EntryIndex(address: long): (i: nat)
      requires View().Wf()
      reads this, entry
      ensures i == EntryOf(View(), address)
    {
      var half := (address as int - BASE) % 0x1_0000_0000 / 2;
      if entries == MAX_ENTRIES then half % MAX_ENTRIES else half % NARROW_MAP
    }

    /** The board's byte cycle into the map. */
    method WriteLane(address: long, v: byte)
      requires View().Wf()
      modifies entry
      ensures View() == WriteByte(old(View()), address, v)
    {
      var was := Read(address);
      Write(address, if address % 2 == 1 then Join(High(was), v) else Join(v, Low(was)));
    }
  }
}

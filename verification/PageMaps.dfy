/**
 * Every page map drawn as tables: a frame or nothing for each page, the index widths of
 * the translation control, and a format for each level. The tables are laid out one
 * after another from their root, no two longwords of them fall together, and the walk
 * of the image they make gives the map back.
 */
module PageMaps {
  import opened Options
  import opened Arithmetic
  import opened Words
  import opened TableWalk
  import opened TableImages

  /** A frame or nothing for each page, in page order. */
  type PageMap = seq<Option<long>>

  predicate IsMap(frames: PageMap, ps: nat, widths: seq<nat>, formats: seq<bool>) {
    && widths != [] && |formats| == |widths| && |frames| == Pow2(Sum(widths))
    && forall i :: 0 <= i < |frames| && frames[i].Some? ==> IsFrame(frames[i].value, ps)
  }

  function Padded(n: nat): (m: nat)
    ensures n <= m && m % 16 == 0
  {
    (n + 15) / 16 * 16
  }

  /** The bytes one table takes, and a table with all below it. */
  function TableBytes(width: nat, wide: bool): nat { Padded(Pow2(width) * Stride(wide)) }

  function Room(widths: seq<nat>, formats: seq<bool>): nat
    requires widths != [] && |formats| == |widths|
    decreases |widths|
  {
    TableBytes(widths[0], formats[0]) + if |widths| == 1 then 0 else Pow2(widths[0]) * Room(widths[1..], formats[1..])
  }

  /** The pages under entry `i`. */
  function Under(frames: PageMap, widths: seq<nat>, i: nat): PageMap
    requires widths != [] && |frames| == Pow2(Sum(widths)) && i < Pow2(widths[0])
    ensures |Under(frames, widths, i)| == Pow2(Sum(widths[1..]))
  {
    SplitPages(widths, i);
    frames[i * Pow2(Sum(widths[1..]))..(i + 1) * Pow2(Sum(widths[1..]))]
  }

  lemma SplitPages(widths: seq<nat>, i: nat)
    requires widths != [] && i < Pow2(widths[0])
    ensures var n := Pow2(Sum(widths[1..]));
            i * n + n == (i + 1) * n <= Pow2(Sum(widths)) && 0 <= i * n
  {
    hide Pow2;
    var n, m := Pow2(Sum(widths[1..])), Pow2(widths[0]);
    Pow2Add(widths[0], Sum(widths[1..]));
    Scale(n, i, m);
    assert n * i + n == (i + 1) * n && n * m == m * n;
  }

  /** Where the tables under entry `i` begin. */
  function ChildAt(widths: seq<nat>, formats: seq<bool>, at: nat, i: nat): nat
    requires |widths| > 1 && |formats| == |widths|
  {
    at + TableBytes(widths[0], formats[0]) + i * Room(widths[1..], formats[1..])
  }

  lemma ChildFits(widths: seq<nat>, formats: seq<bool>, at: nat, i: nat)
    requires |widths| > 1 && |formats| == |widths| && i < Pow2(widths[0])
    ensures ChildAt(widths, formats, at, i) + Room(widths[1..], formats[1..]) == ChildAt(widths, formats, at, i + 1)
    ensures ChildAt(widths, formats, at, i + 1) <= at + Room(widths, formats)
  {
    hide Pow2, TableBytes;
    var r := Room(widths[1..], formats[1..]);
    Scale(r, i, Pow2(widths[0]));
    assert r * i + r == (i + 1) * r && r * i == i * r && r * Pow2(widths[0]) == Pow2(widths[0]) * r;
  }

  lemma {:induction false} RoomAligned(widths: seq<nat>, formats: seq<bool>)
    requires widths != [] && |formats| == |widths|
    ensures Room(widths, formats) % 16 == 0 && Room(widths, formats) > 0
    decreases |widths|
  {
    hide Pow2;
    if |widths| > 1 {
      RoomAligned(widths[1..], formats[1..]);
      MultipleOf16(Pow2(widths[0]), Room(widths[1..], formats[1..]));
      Sum16(TableBytes(widths[0], formats[0]), Pow2(widths[0]) * Room(widths[1..], formats[1..]));
    }
  }

  lemma MultipleOf16(a: nat, b: nat)
    requires b % 16 == 0
    ensures a * b % 16 == 0
  {
    assert a * b == 16 * (a * (b / 16));
    Division(a * b, 16, a * (b / 16), 0);
  }

  lemma Sum16(a: nat, b: nat)
    requires a % 16 == 0 && b % 16 == 0
    ensures (a + b) % 16 == 0
  {
  }

  // ----- drawing -------------------------------------------------------------------------

  function Drawing(frames: PageMap, widths: seq<nat>, formats: seq<bool>, at: nat): (t: Table)
    requires widths != [] && |formats| == |widths| && |frames| == Pow2(Sum(widths))
    requires at + Room(widths, formats) < 0x1_0000_0000
    ensures t.at == at && t.wide == formats[0] && |t.entries| == Pow2(widths[0])
    decreases |widths|, 1
  {
    Table(at, formats[0], seq(Pow2(widths[0]), i requires 0 <= i < Pow2(widths[0]) =>
      EntryOf(frames, widths, formats, at, i)))
  }

  function EntryOf(frames: PageMap, widths: seq<nat>, formats: seq<bool>, at: nat, i: nat): Entry
    requires widths != [] && |formats| == |widths| && |frames| == Pow2(Sum(widths)) && i < Pow2(widths[0])
    requires at + Room(widths, formats) < 0x1_0000_0000
    decreases |widths|, 0
  {
    if |widths| == 1 then
      assert Under(frames, widths, i) == frames[i..i + 1];
      match frames[i] case None => Invalid(0) case Some(f) => Page(f, 0)
    else
      ChildFits(widths, formats, at, i);
      Branch(Drawing(Under(frames, widths, i), widths[1..], formats[1..], ChildAt(widths, formats, at, i)), 0)
  }

  lemma UnderIsMap(frames: PageMap, ps: nat, widths: seq<nat>, formats: seq<bool>, i: nat)
    requires IsMap(frames, ps, widths, formats) && |widths| > 1 && i < Pow2(widths[0])
    ensures IsMap(Under(frames, widths, i), ps, widths[1..], formats[1..])
  {
    hide Pow2, IsFrame;
    SplitPages(widths, i);
    var n := Pow2(Sum(widths[1..]));
    var u := Under(frames, widths, i);
    forall k | 0 <= k < |u| && u[k].Some? ensures IsFrame(u[k].value, ps) {
      assert u[k] == frames[i * n + k];
    }
  }

  /** The last level's entries are the map's own. */
  lemma LastLevel(frames: PageMap, ps: nat, widths: seq<nat>, formats: seq<bool>, at: nat, i: nat)
    requires IsMap(frames, ps, widths, formats) && |widths| == 1 && i < Pow2(widths[0])
    requires at + Room(widths, formats) < 0x1_0000_0000
    ensures i < |frames|
    ensures EntryOf(frames, widths, formats, at, i) ==
            match frames[i] case None => Invalid(0) case Some(f) => Page(f, 0)
    ensures EntryFits(EntryOf(frames, widths, formats, at, i), ps, widths)
  {
    hide Pow2, IsFrame, Room;
    assert Sum(widths) == widths[0];
  }

  /** Above it, each is a branch to the drawing of its own pages. */
  lemma UpperLevel(frames: PageMap, ps: nat, widths: seq<nat>, formats: seq<bool>, at: nat, i: nat)
    requires IsMap(frames, ps, widths, formats) && |widths| > 1 && i < Pow2(widths[0]) && at % 16 == 0
    requires at + Room(widths, formats) < 0x1_0000_0000
    ensures var child := ChildAt(widths, formats, at, i);
            && child % 16 == 0 && child + Room(widths[1..], formats[1..]) < 0x1_0000_0000
            && IsMap(Under(frames, widths, i), ps, widths[1..], formats[1..])
            && EntryOf(frames, widths, formats, at, i) ==
               Branch(Drawing(Under(frames, widths, i), widths[1..], formats[1..], child), 0)
  {
    hide Pow2, Room, IsMap, Under, Drawing;
    MapHolds(frames, ps, widths, formats);
    ChildFits(widths, formats, at, i);
    ChildAligned(widths, formats, at, i);
    UnderIsMap(frames, ps, widths, formats, i);
  }

  lemma MapHolds(frames: PageMap, ps: nat, widths: seq<nat>, formats: seq<bool>)
    requires IsMap(frames, ps, widths, formats)
    ensures widths != [] && |formats| == |widths| && |frames| == Pow2(Sum(widths))
  {
  }

  lemma {:induction false} DrawingFits(frames: PageMap, ps: nat, widths: seq<nat>, formats: seq<bool>, at: nat)
    requires IsMap(frames, ps, widths, formats) && at % 16 == 0
    requires at + Room(widths, formats) < 0x1_0000_0000
    ensures Fits(Drawing(frames, widths, formats, at), ps, widths)
    decreases |widths|
  {
    hide Pow2, IsMap, Room, EntryOf, Under, ChildAt;
    MapHolds(frames, ps, widths, formats);
    var t := Drawing(frames, widths, formats, at);
    forall i | 0 <= i < |t.entries|
      ensures EntryFits(t.entries[i], ps, widths)
    {
      if |widths| == 1 {
        LastLevel(frames, ps, widths, formats, at, i);
      } else {
        UpperLevel(frames, ps, widths, formats, at, i);
        DrawingFits(Under(frames, widths, i), ps, widths[1..], formats[1..], ChildAt(widths, formats, at, i));
      }
    }
  }

  lemma ChildAligned(widths: seq<nat>, formats: seq<bool>, at: nat, i: nat)
    requires |widths| > 1 && |formats| == |widths| && at % 16 == 0
    ensures ChildAt(widths, formats, at, i) % 16 == 0
  {
    hide Pow2, Room;
    RoomAligned(widths[1..], formats[1..]);
    MultipleOf16(i, Room(widths[1..], formats[1..]));
    Sum16(at, TableBytes(widths[0], formats[0]));
    Sum16(at + TableBytes(widths[0], formats[0]), i * Room(widths[1..], formats[1..]));
  }

  // ----- what the drawing says -------------------------------------------------------------

  /** What the map says of an address whose page number is `page`. */
  function Says(frames: PageMap, page: nat, offset: nat): Outcome
    requires page < |frames|
  {
    match frames[page] case None => Fails case Some(f) => Mapped(f + offset)
  }

  /** Index by index is page by page. */
  lemma {:induction false} DrawingSays(frames: PageMap, ps: nat, widths: seq<nat>, formats: seq<bool>, at: nat,
                                       shift: nat, logical: long)
    requires IsMap(frames, ps, widths, formats) && Sum(widths) <= shift
    requires at % 16 == 0 && at + Room(widths, formats) < 0x1_0000_0000
    requires Fits(Drawing(frames, widths, formats, at), ps, widths)
    ensures IndexOf(logical, shift - Sum(widths), Sum(widths)) < |frames|
    ensures Lookup(Drawing(frames, widths, formats, at), ps, widths, shift, logical) ==
            Says(frames, IndexOf(logical, shift - Sum(widths), Sum(widths)), logical % Pow2(ps))
    decreases |widths|
  {
    hide Pow2, IndexOf, IsMap, Room, EntryOf, Under, ChildAt, Fits;
    MapHolds(frames, ps, widths, formats);
    var i := IndexOf(logical, shift - widths[0], widths[0]);
    IndexBelow(logical, shift - widths[0], widths[0]);
    IndexBelow(logical, shift - Sum(widths), Sum(widths));
    if |widths| == 1 {
      assert Sum(widths) == widths[0];
      LastLevel(frames, ps, widths, formats, at, i);
    } else {
      UpperLevel(frames, ps, widths, formats, at, i);
      var u, child := Under(frames, widths, i), ChildAt(widths, formats, at, i);
      DrawingFits(u, ps, widths[1..], formats[1..], child);
      DrawingSays(u, ps, widths[1..], formats[1..], child, shift - widths[0], logical);
      SaysUnder(frames, widths, i, shift, logical);
    }
  }

  /** The page number under the entry is the rest of the page number. */
  lemma SaysUnder(frames: PageMap, widths: seq<nat>, i: nat, shift: nat, logical: long)
    requires widths != [] && |frames| == Pow2(Sum(widths)) && Sum(widths) <= shift
    requires i == IndexOf(logical, shift - widths[0], widths[0]) < Pow2(widths[0])
    ensures var r := Sum(widths[1..]);
            var page := IndexOf(logical, shift - Sum(widths), Sum(widths));
            var low := IndexOf(logical, shift - Sum(widths), r);
            page < |frames| && low < |Under(frames, widths, i)| && frames[page] == Under(frames, widths, i)[low]
  {
    hide Pow2, IndexOf;
    IndexBelow(logical, shift - Sum(widths), Sum(widths));
    IndexBelow(logical, shift - Sum(widths), Sum(widths[1..]));
    PageParts(logical, shift, widths);
    SplitPages(widths, i);
  }

  lemma IndexBelow(logical: long, shift: nat, width: nat)
    ensures IndexOf(logical, shift, width) < Pow2(width)
  {
    hide Pow2;
  }

  /** A page number is its top index and the page number below it. */
  lemma PageParts(logical: long, shift: nat, widths: seq<nat>)
    requires widths != [] && Sum(widths) <= shift
    ensures var r := Sum(widths[1..]);
            IndexOf(logical, shift - Sum(widths), Sum(widths)) ==
            IndexOf(logical, shift - widths[0], widths[0]) * Pow2(r) + IndexOf(logical, shift - Sum(widths), r)
  {
    hide IndexOf, Pow2;
    SplitField(logical, shift - Sum(widths), Sum(widths[1..]), widths[0]);
  }

  lemma SplitField(x: long, low: nat, r: nat, w: nat)
    ensures IndexOf(x, low, r + w) == IndexOf(x, low + r, w) * Pow2(r) + IndexOf(x, low, r)
  {
    hide Pow2;
    Pow2Add(r, w);
    InTwoSteps(x, low, r);
    SplitAt(x / Pow2(low), Pow2(r), Pow2(w), Pow2(r + w));
  }

  lemma SplitAt(y: nat, a: nat, b: nat, m: nat)
    requires a > 0 && b > 0 && m == a * b > 0
    ensures y % m == y / a % b * a + y % a
  {
    SplitRemainder(y, a, b);
  }

  lemma SplitRemainder(y: nat, a: nat, b: nat)
    requires a > 0 && b > 0 && a * b > 0
    ensures y % (a * b) == y / a % b * a + y % a
  {
    DivDiv(y, a, b);
    var q := y / a;
    assert y == a * q + y % a && q == b * (q / b) + q % b;
    assert a * (b * (q / b) + q % b) == (a * b) * (q / b) + a * (q % b);
    Scale(a, q % b, b);
    Division(y, a * b, q / b, a * (q % b) + y % a);
  }

  // ----- where the drawing goes ---------------------------------------------------------------

  predicate Inside(s: seq<Store>, low: nat, high: nat) {
    forall i :: 0 <= i < |s| ==> low <= s[i].at && s[i].at + 4 <= high
  }

  /** Each longword in one stretch or the other. */
  predicate InTwo(s: seq<Store>, low: nat, high: nat, low2: nat, high2: nat) {
    forall i :: 0 <= i < |s| ==>
      (low <= s[i].at && s[i].at + 4 <= high) || (low2 <= s[i].at && s[i].at + 4 <= high2)
  }

  /** What is added, own part and lower part, keeps clear of what was there. */
  lemma JoinPlaced(a: seq<Store>, own: seq<Store>, below: seq<Store>, l: nat, m: nat, n: nat, k: nat, p: nat, q: nat)
    requires Placed(a) && Placed(own) && Placed(below) && l <= m <= n <= k <= p <= q
    requires InTwo(a, l, m, k, p) && Inside(own, m, n) && Inside(below, p, q)
    ensures Placed(a + own + below) && InTwo(a + own + below, l, n, k, q)
  {
    var s := a + own + below;
    forall i | 0 <= i < |s|
      ensures InRam(s[i].at) && s[i].at % 4 == 0
      ensures (l <= s[i].at && s[i].at + 4 <= n) || (k <= s[i].at && s[i].at + 4 <= q)
    {
      assert s[i] == if i < |a| then a[i] else if i < |a| + |own| then own[i - |a|] else below[i - |a| - |own|];
    }
    forall i, j | 0 <= i < j < |s| ensures s[i].at != s[j].at {
      assert s[i] == if i < |a| then a[i] else if i < |a| + |own| then own[i - |a|] else below[i - |a| - |own|];
      assert s[j] == if j < |a| then a[j] else if j < |a| + |own| then own[j - |a|] else below[j - |a| - |own|];
    }
    hide InRam;
  }

  /** The last level has nothing below it. */
  function LowEnd(widths: seq<nat>, formats: seq<bool>, at: nat, n: nat): nat
    requires widths != [] && |formats| == |widths|
  {
    if |widths| == 1 then at + TableBytes(widths[0], formats[0]) else ChildAt(widths, formats, at, n)
  }

  predicate RoomInRam(widths: seq<nat>, formats: seq<bool>, at: nat)
    requires widths != [] && |formats| == |widths|
  {
    at % 16 == 0 && RAM_BASE <= at && at + Room(widths, formats) <= RAM_BASE + RAM_SIZE
  }

  lemma OwnPlaced(t: Table, ps: nat, widths: seq<nat>, formats: seq<bool>, i: nat)
    requires Fits(t, ps, widths) && |formats| == |widths| && t.wide == formats[0] && i < |t.entries|
    requires RoomInRam(widths, formats, t.at)
    ensures var st := Stride(t.wide);
            Placed(Own(t, ps, widths, i)) && Inside(Own(t, ps, widths, i), t.at + i * st, t.at + (i + 1) * st)
    ensures t.at + (i + 1) * Stride(t.wide) <= t.at + TableBytes(widths[0], formats[0]) <= t.at + Room(widths, formats)
  {
    hide Pow2, Fits, Descriptor, Room;
    TableInRoom(t, ps, widths, formats, i);
    FourAligned(t.at, i, Stride(t.wide));
  }

  lemma FourAligned(at: nat, i: nat, stride: nat)
    requires at % 16 == 0 && (stride == 4 || stride == 8)
    ensures (at + i * stride) % 4 == 0
  {
    var k := if stride == 4 then i else 2 * i;
    assert at == 4 * (4 * (at / 16));
    Division(at + i * stride, 4, 4 * (at / 16) + k, 0);
  }

  lemma TableInRoom(t: Table, ps: nat, widths: seq<nat>, formats: seq<bool>, i: nat)
    requires Fits(t, ps, widths) && |formats| == |widths| && t.wide == formats[0] && i < |t.entries|
    ensures (i + 1) * Stride(t.wide) <= TableBytes(widths[0], formats[0]) <= Room(widths, formats)
  {
    hide Pow2;
    Scale(Stride(t.wide), i, Pow2(widths[0]));
    if |widths| > 1 { NotNegative(Pow2(widths[0]), Room(widths[1..], formats[1..])); }
  }

  lemma NotNegative(a: nat, b: nat)
    ensures a * b >= 0
  {
  }

  lemma {:induction false} FirstPlaced(frames: PageMap, ps: nat, widths: seq<nat>, formats: seq<bool>, at: nat, n: nat)
    requires IsMap(frames, ps, widths, formats) && RoomInRam(widths, formats, at) && n <= Pow2(widths[0])
    requires Fits(Drawing(frames, widths, formats, at), ps, widths)
    ensures var t, kids := Drawing(frames, widths, formats, at), at + TableBytes(widths[0], formats[0]);
            var s := FirstStores(t, ps, widths, n);
            && Placed(s) && at + n * Stride(t.wide) <= kids
            && InTwo(s, at, at + n * Stride(t.wide), kids, LowEnd(widths, formats, at, n))
    decreases |widths|, n
  {
    hide Pow2, IsMap, EntryOf, Own, Fits, Placed, InTwo, Inside;
    MapHolds(frames, ps, widths, formats);
    var t, kids := Drawing(frames, widths, formats, at), at + TableBytes(widths[0], formats[0]);
    if n == 0 {
      NothingPlaced(at, kids);
    } else {
      FirstPlaced(frames, ps, widths, formats, at, n - 1);
      OwnPlaced(t, ps, widths, formats, n - 1);
      BelowPlaced(frames, ps, widths, formats, at, n - 1);
      var st := Stride(t.wide);
      JoinPlaced(FirstStores(t, ps, widths, n - 1), Own(t, ps, widths, n - 1), Below(t, ps, widths, n - 1),
                 at, at + (n - 1) * st, at + n * st, kids,
                 LowEnd(widths, formats, at, n - 1), LowEnd(widths, formats, at, n));
    }
  }

  lemma NothingPlaced(at: nat, kids: nat)
    ensures Placed([]) && InTwo([], at, at, kids, kids)
  {
  }

  lemma {:induction false} BelowPlaced(frames: PageMap, ps: nat, widths: seq<nat>, formats: seq<bool>, at: nat, i: nat)
    requires IsMap(frames, ps, widths, formats) && RoomInRam(widths, formats, at) && i < Pow2(widths[0])
    requires Fits(Drawing(frames, widths, formats, at), ps, widths)
    ensures var b := Below(Drawing(frames, widths, formats, at), ps, widths, i);
            Placed(b) && Inside(b, LowEnd(widths, formats, at, i), LowEnd(widths, formats, at, i + 1))
    ensures at + TableBytes(widths[0], formats[0]) <= LowEnd(widths, formats, at, i)
    ensures LowEnd(widths, formats, at, i) <= LowEnd(widths, formats, at, i + 1)
    decreases |widths|, i
  {
    hide Pow2, IsMap, EntryOf, Own, Placed, Under;
    MapHolds(frames, ps, widths, formats);
    if |widths| == 1 {
      LastLevel(frames, ps, widths, formats, at, i);
      NothingPlaced(0, 0);
    } else {
      UpperLevel(frames, ps, widths, formats, at, i);
      ChildFits(widths, formats, at, i);
      NotNegative(i, Room(widths[1..], formats[1..]));
      DrawingPlaced(Under(frames, widths, i), ps, widths[1..], formats[1..], ChildAt(widths, formats, at, i));
    }
  }

  /** The tables drawn take only the room reckoned for them, and no longword twice. */
  lemma {:induction false} DrawingPlaced(frames: PageMap, ps: nat, widths: seq<nat>, formats: seq<bool>, at: nat)
    requires IsMap(frames, ps, widths, formats) && RoomInRam(widths, formats, at)
    ensures var t := Drawing(frames, widths, formats, at);
            && Fits(t, ps, widths) && Placed(Stores(t, ps, widths))
            && Inside(Stores(t, ps, widths), at, at + Room(widths, formats))
    decreases |widths|, Pow2(widths[0]) + 1
  {
    hide Pow2, IsMap, Drawing, Fits, Placed;
    MapHolds(frames, ps, widths, formats);
    DrawingFits(frames, ps, widths, formats, at);
    FirstPlaced(frames, ps, widths, formats, at, Pow2(widths[0]));
  }

  // ----- the round trip -------------------------------------------------------------------------

  /** The root the walk starts from, and its limit register. */
  function Root(cpu: Cpu, supervisor: bool): (long, long) {
    if supervisor && DecodeTc(cpu.tc).sre then (cpu.srp, cpu.srpLimit) else (cpu.crp, cpu.crpLimit)
  }

  lemma DrawingWalks(ram: Ram, ps: nat, frames: PageMap, widths: seq<nat>, formats: seq<bool>, root: nat, shift: nat,
                     logical: long)
    requires IsMap(frames, ps, widths, formats) && RoomInRam(widths, formats, root) && Sum(widths) <= shift
    ensures var t, page := Drawing(frames, widths, formats, root), IndexOf(logical, shift - Sum(widths), Sum(widths));
            && Fits(t, ps, widths) && page < |frames|
            && WalkFrom(Written(ram, Stores(t, ps, widths)), ps, widths, shift, root, Stride(formats[0]), logical) ==
               Says(frames, page, logical % Pow2(ps))
  {
    hide Pow2, IsMap, Fits, Stores, Placed, Room, Holds, IndexOf, Written, WalkFrom;
    MapHolds(frames, ps, widths, formats);
    var t := Drawing(frames, widths, formats, root);
    DrawingPlaced(frames, ps, widths, formats, root);
    WrittenHolds(ram, Stores(t, ps, widths));
    WalkReads(Written(ram, Stores(t, ps, widths)), t, ps, widths, shift, logical);
    DrawingSays(frames, ps, widths, formats, root, shift, logical);
  }

  /** Any page map, in any mixture of formats below a short root, written into any RAM
      where it has room: the walk gives every address the frame its page was mapped to
      and its offset, and fails for every address whose page was left out. */
  lemma MapWalks(ram: Ram, cpu: Cpu, frames: PageMap, formats: seq<bool>, logical: long, supervisor: bool)
    requires var tc := DecodeTc(cpu.tc);
             tc.enabled && tc.skip + Sum(Widths(tc.ti)) <= 32 && IsMap(frames, tc.ps, Widths(tc.ti), formats)
    requires !formats[0] && Root(cpu, supervisor).1 % 4 == 2
    requires RoomInRam(Widths(DecodeTc(cpu.tc).ti), formats, Root(cpu, supervisor).0)
    ensures var tc, widths := DecodeTc(cpu.tc), Widths(DecodeTc(cpu.tc).ti);
            var t := Drawing(frames, widths, formats, Root(cpu, supervisor).0);
            var page := logical / Pow2(32 - tc.skip - Sum(widths)) % Pow2(Sum(widths));
            && Fits(t, tc.ps, widths) && page < |frames|
            && Walk(Written(ram, Stores(t, tc.ps, widths)), cpu, logical, supervisor) ==
               match frames[page]
               case None => Fails
               case Some(frame) => Mapped(frame + logical % Pow2(tc.ps))
  {
    var tc, widths := DecodeTc(cpu.tc), Widths(DecodeTc(cpu.tc).ti);
    hide Pow2, IsMap, DecodeTc, Widths, Fits, Stores, Drawing, Room, Written, WalkFrom;
    MapHolds(frames, tc.ps, widths, formats);
    DrawingWalks(ram, tc.ps, frames, widths, formats, Root(cpu, supervisor).0, 32 - tc.skip, logical);
  }

  /** A translation control register from its fields. */
  function Control(enabled: bool, sre: bool, ps: nat, skip: nat, ti: seq<nat>): long
    requires ps < 16 && skip < 16 && |ti| == 4 && forall i :: 0 <= i < 4 ==> ti[i] < 16
  {
    (if enabled then 0x8000_0000 else 0) + (if sre then 0x200_0000 else 0) + 0x10_0000 * ps + 0x1_0000 * skip
    + 0x1000 * ti[0] + 0x100 * ti[1] + 0x10 * ti[2] + ti[3]
  }

  /** And its fields back. */
  lemma ControlDecodes(enabled: bool, sre: bool, ps: nat, skip: nat, ti: seq<nat>)
    requires ps < 16 && skip < 16 && |ti| == 4 && forall i :: 0 <= i < 4 ==> ti[i] < 16
    ensures DecodeTc(Control(enabled, sre, ps, skip, ti)) == Tc(enabled, sre, ps, skip, ti)
  {
    var tc := Control(enabled, sre, ps, skip, ti);
    var high := (if enabled then 0x80 else 0) + (if sre then 2 else 0);
    var t5 := 0x10 * high + ps;
    var t4 := 0x10 * t5 + skip;
    var t3 := 0x10 * t4 + ti[0];
    var t2 := 0x10 * t3 + ti[1];
    var t1 := 0x10 * t2 + ti[2];
    assert tc == 0x10 * t1 + ti[3];
    Nibble(tc, 1, t1, ti[3]);
    Nibble(tc, 0x10, t2, ti[2]);
    Nibble(tc, 0x100, t3, ti[1]);
    Nibble(tc, 0x1000, t4, ti[0]);
    Nibble(tc, 0x1_0000, t5, skip);
    Nibble(tc, 0x10_0000, high, ps);
    DivDiv(tc, 0x100_0000, 2);
    DivDiv(tc, 0x100_0000, 0x80);
    assert high / 2 % 2 == if sre then 1 else 0;
    assert high / 0x80 % 2 == if enabled then 1 else 0;
  }

  /** One hexadecimal digit, once those below it are off. */
  lemma Nibble(tc: nat, unit: nat, rest: nat, digit: nat)
    requires unit > 0 && digit < 0x10 && tc / unit == 0x10 * rest + digit
    ensures tc / unit % 0x10 == digit && unit * 0x10 > 0 && tc / (unit * 0x10) == rest
  {
    Division(tc / unit, 0x10, rest, digit);
    DivDiv(tc, unit, 0x10);
  }
}

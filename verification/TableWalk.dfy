/**
 * The MC68030 table walk over a RAM image: section 9 of the MC68030 User's Manual,
 * with short and long descriptors, early termination and indirection, and nothing
 * guessed beyond them.
 */
module TableWalk {
  import opened Options
  import opened Arithmetic
  import opened Words

  const RAM_BASE: int := 0x0100_0000
  const RAM_SIZE: int := 0x100_0000

  /** Main memory by byte offset. */
  type Ram = nat -> byte

  /** `Raises` is the walk stopped by a negative shift or an unreadable half. */
  datatype Outcome = Mapped(physical: nat) | Fails | Raises

  function Rd32(ram: Ram, phys: int): Option<long> {
    var off := phys - RAM_BASE;
    if off < 0 || off + 4 > RAM_SIZE then None
    else Some(LongOf([ram(off), ram(off + 1), ram(off + 2), ram(off + 3)]))
  }

  /** Enable, supervisor-root enable, page shift, initial shift and index widths. */
  datatype Tc = Tc(enabled: bool, sre: bool, ps: nat, skip: nat, ti: seq<nat>)

  function DecodeTc(tc: long): Tc {
    Tc(tc / 0x8000_0000 % 2 == 1, tc / 0x200_0000 % 2 == 1, tc / 0x10_0000 % 16, tc / 0x1_0000 % 16,
       [tc / 0x1000 % 16, tc / 0x100 % 16, tc / 0x10 % 16, tc % 16])
  }

  /** Index widths of zero are levels that are not there. */
  function Widths(ti: seq<nat>): (w: seq<nat>)
    ensures Sum(w) == Sum(ti)
  {
    if ti == [] then [] else if ti[0] == 0 then Widths(ti[1..]) else
      assert ([ti[0]] + Widths(ti[1..]))[1..] == Widths(ti[1..]);
      [ti[0]] + Widths(ti[1..])
  }

  function Sum(s: seq<nat>): nat { if s == [] then 0 else s[0] + Sum(s[1..]) }

  lemma ResidueSmall(x: nat, m: nat)
    requires m > 0
    ensures x % m <= x
  {
  }

  /** The frame a page descriptor names: its low eight bits and its offset bits off. */
  function Frame(descriptor: long, ps: nat): nat {
    var m := if ps <= 8 then 0x100 else Pow2(ps);
    ResidueSmall(descriptor, m);
    descriptor - descriptor % m
  }

  function Place(descriptor: long, ps: nat, logical: long): Outcome {
    Mapped(Frame(descriptor, ps) + logical % Pow2(ps))
  }

  function IndexOf(logical: long, shift: nat, width: nat): nat { logical / Pow2(shift) % Pow2(width) }

  /** What one descriptor leads to. */
  datatype Next = Stop(outcome: Outcome) | Descend(table: nat, stride: nat)

  function Follow(ram: Ram, ps: nat, addr: int, stride: nat, last: bool, logical: long): Next {
    var upper := Rd32(ram, addr);
    if upper.None? then Stop(Fails)
    else if stride == 8 && Rd32(ram, addr + 4).None? then Stop(Raises)
    else
      var low := if stride == 8 then Rd32(ram, addr + 4).value else upper.value;
      var dt := upper.value % 4;
      if dt == 0 then Stop(Fails)
      else if dt == 1 then Stop(Place(low, ps, logical))
      else if last then
        var pointed := Rd32(ram, low / 4 * 4);
        if pointed.None? || pointed.value % 4 != 1 then Stop(Fails) else Stop(Place(pointed.value, ps, logical))
      else Descend(low / 16 * 16, if dt == 3 then 8 else 4)
  }

  function WalkFrom(ram: Ram, ps: nat, widths: seq<nat>, shift: int, table: nat, stride: nat, logical: long): Outcome {
    if widths == [] then Fails
    else if shift < widths[0] then Raises
    else
      var index := IndexOf(logical, shift - widths[0], widths[0]);
      match Follow(ram, ps, table + index * stride, stride, |widths| == 1, logical)
      case Stop(outcome) => outcome
      case Descend(t, s) => WalkFrom(ram, ps, widths[1..], shift - widths[0], t, s, logical)
  }

  datatype Cpu = Cpu(tc: long, crp: long, crpLimit: long, srp: long, srpLimit: long)

  function Walk(ram: Ram, cpu: Cpu, logical: long, supervisor: bool): Outcome {
    var tc := DecodeTc(cpu.tc);
    if !tc.enabled then Mapped(logical)
    else
      var super := supervisor && tc.sre;
      var root, limit := if super then cpu.srp else cpu.crp, if super then cpu.srpLimit else cpu.crpLimit;
      if limit % 4 != 2 then Fails
      else WalkFrom(ram, tc.ps, Widths(tc.ti), 32 - tc.skip, root, 4, logical)
  }

  // ----- powers of two ----------------------------------------------------------------

  lemma {:induction false} Pow2Add(a: nat, b: nat)
    ensures Pow2(a + b) == Pow2(a) * Pow2(b)
  {
    if a > 0 {
      Pow2Add(a - 1, b);
      Doubling(Pow2(a - 1), Pow2(b));
    }
  }

  lemma Doubling(x: nat, y: nat)
    ensures 2 * (x * y) == (2 * x) * y
  {
  }

  lemma Parts(x: nat, a: nat)
    requires a > 0
    ensures x == a * (x / a) + x % a && 0 <= x % a < a
  {
  }

  lemma TwoSteps(x: nat, a: nat, b: nat, q: nat, r: nat, t: nat, u: nat)
    requires a > 0 && b > 0 && a * b > 0
    requires x == a * q + r && r < a && q == b * t + u && u < b
    ensures x / (a * b) == t
  {
    Scale(a, u, b);
    Spread(a, b, t, u);
    Division(x, a * b, t, a * u + r);
  }

  lemma Spread(a: nat, b: nat, t: nat, u: nat)
    ensures a * (b * t + u) == (a * b) * t + a * u
  {
  }

  /** Taking a quotient in two steps. */
  lemma DivDiv(x: nat, a: nat, b: nat)
    requires a > 0 && b > 0
    ensures a * b > 0 && x / (a * b) == x / a / b
  {
    var q, r := x / a, x % a;
    Parts(x, a);
    Parts(q, b);
    Scale(a, 0, b);
    TwoSteps(x, a, b, q, r, q / b, q % b);
  }

  lemma DivAdd(a: nat, k: nat, r: nat)
    requires a > 0
    ensures (a * k + r) / a == k + r / a && (a * k + r) % a == r % a
  {
    assert a * (k + r / a) == a * k + a * (r / a);
    Division(a * k + r, a, k + r / a, r % a);
  }

  lemma Regroup(a: nat, b: nat, c: nat, q: nat)
    ensures a * (b * c) * q == a * (b * (c * q))
  {
  }

  lemma Field(y: nat, a: nat, b: nat, c: nat)
    requires a > 0 && b > 0 && c > 0 && a * (b * c) > 0
    ensures y / a % b == y % (a * (b * c)) / a % b
  {
    var q, r := y / (a * (b * c)), y % (a * (b * c));
    assert y == a * (b * c) * q + r;
    Regroup(a, b, c, q);
    DivAdd(a, b * (c * q), r);
    DivAdd(b, c * q, r / a);
  }

  /** A field of a number is a field of its residue, when it lies inside it. */
  lemma FieldOfResidue(y: nat, t: nat, w: nat, u: nat)
    ensures y / Pow2(t) % Pow2(w) == y % Pow2(t + w + u) / Pow2(t) % Pow2(w)
  {
    hide Pow2;
    Pow2Add(t, w + u);
    Pow2Add(w, u);
    assert t + (w + u) == t + w + u;
    Field(y, Pow2(t), Pow2(w), Pow2(u));
  }

  /** Two addresses with the same bits from `ps` up to `top`. */
  predicate SamePage(x: long, y: long, ps: nat, top: nat)
    requires ps <= top
  {
    x / Pow2(ps) % Pow2(top - ps) == y / Pow2(ps) % Pow2(top - ps)
  }

  lemma InTwoSteps(x: nat, a: nat, b: nat)
    ensures x / Pow2(a + b) == x / Pow2(a) / Pow2(b)
  {
    hide Pow2;
    Pow2Add(a, b);
    DivDiv(x, Pow2(a), Pow2(b));
  }

  /** An index is a field of the page number. */
  lemma IndexInPage(x: long, ps: nat, top: nat, shift: nat, width: nat)
    requires ps <= shift && shift + width <= top
    ensures IndexOf(x, shift, width) == x / Pow2(ps) % Pow2(top - ps) / Pow2(shift - ps) % Pow2(width)
  {
    hide Pow2;
    var t, u := shift - ps, top - shift - width;
    assert t + width + u == top - ps && ps + t == shift;
    InTwoSteps(x, ps, t);
    FieldOfResidue(x / Pow2(ps), t, width, u);
  }

  lemma SameIndex(x: long, y: long, ps: nat, top: nat, shift: nat, width: nat)
    requires ps <= shift && shift + width <= top && SamePage(x, y, ps, top)
    ensures IndexOf(x, shift, width) == IndexOf(y, shift, width)
  {
    hide Pow2, IndexOf;
    IndexInPage(x, ps, top, shift, width);
    IndexInPage(y, ps, top, shift, width);
  }

  // ----- the walk --------------------------------------------------------------------

  /** The same outcome, but for the offset each address carries through. */
  predicate SameFrame(a: Outcome, b: Outcome, x: long, y: long, ps: nat) {
    match (a, b)
    case (Mapped(p), Mapped(q)) => p - x % Pow2(ps) == q - y % Pow2(ps)
    case _ => a == b
  }

  lemma {:induction false} UniformFrom(ram: Ram, ps: nat, top: nat, widths: seq<nat>, shift: int, table: nat,
                                       stride: nat, x: long, y: long)
    requires ps + Sum(widths) <= shift <= top && SamePage(x, y, ps, top)
    ensures SameFrame(WalkFrom(ram, ps, widths, shift, table, stride, x),
                      WalkFrom(ram, ps, widths, shift, table, stride, y), x, y, ps)
    decreases |widths|
  {
    hide SamePage, IndexOf, Rd32, Frame, Pow2;
    if widths != [] {
      var next := shift - widths[0];
      SameIndex(x, y, ps, top, next, widths[0]);
      var index := IndexOf(x, next, widths[0]);
      var f := Follow(ram, ps, table + index * stride, stride, |widths| == 1, x);
      if f.Descend? {
        UniformFrom(ram, ps, top, widths[1..], next, f.table, f.stride, x, y);
      }
    }
  }

  /** For every RAM image and every enabled translation control whose fields fit in
      thirty-two bits: two addresses in the same page both fail, or both land in the
      same frame. */
  lemma PageUniform(ram: Ram, cpu: Cpu, x: long, y: long, supervisor: bool)
    requires var tc := DecodeTc(cpu.tc);
             tc.enabled && tc.skip + Sum(tc.ti) + tc.ps <= 32 && SamePage(x, y, tc.ps, 32 - tc.skip)
    ensures SameFrame(Walk(ram, cpu, x, supervisor), Walk(ram, cpu, y, supervisor), x, y, DecodeTc(cpu.tc).ps)
  {
    hide SamePage, WalkFrom, Widths, SameFrame;
    var tc := DecodeTc(cpu.tc);
    var super := supervisor && tc.sre;
    var root := if super then cpu.srp else cpu.crp;
    UniformFrom(ram, tc.ps, 32 - tc.skip, Widths(tc.ti), 32 - tc.skip, root, 4, x, y);
    FailsAlike(x, y, tc.ps);
  }

  lemma FailsAlike(x: long, y: long, ps: nat)
    ensures SameFrame(Fails, Fails, x, y, ps)
  {
  }

  lemma Floor(x: nat, m: nat)
    requires m > 0
    ensures (x - x % m) % m == 0
  {
    DivAdd(m, x / m, 0);
    assert x - x % m == m * (x / m) + 0;
  }

  lemma FloorOfMultiple(x: nat, m: nat, k: nat)
    requires m > 0 && k > 0 && m * k > 0
    ensures (x - x % (m * k)) % m == 0
  {
    var q := x / (m * k);
    assert x - x % (m * k) == (m * k) * q == m * (k * q);
    DivAdd(m, k * q, 0);
  }

  lemma FrameAligned(descriptor: long, ps: nat)
    ensures Frame(descriptor, ps) % Pow2(ps) == 0
  {
    if ps <= 8 {
      Pow2Add(ps, 8 - ps);
      assert Pow2(8) == 256;
      hide Pow2;
      FloorOfMultiple(descriptor, Pow2(ps), Pow2(8 - ps));
    } else {
      Floor(descriptor, Pow2(ps));
    }
  }

  lemma PlaceKeepsOffset(descriptor: long, ps: nat, logical: long)
    ensures Place(descriptor, ps, logical).physical % Pow2(ps) == logical % Pow2(ps)
  {
    FrameAligned(descriptor, ps);
    AddAligned(Frame(descriptor, ps), Pow2(ps), logical % Pow2(ps));
  }

  lemma AddAligned(f: nat, m: nat, r: nat)
    requires m > 0 && f % m == 0 && r < m
    ensures (f + r) % m == r
  {
    Parts(f, m);
    Division(f + r, m, f / m, r);
  }

  lemma FollowKeepsOffset(ram: Ram, ps: nat, addr: int, stride: nat, last: bool, logical: long)
    ensures var f := Follow(ram, ps, addr, stride, last, logical);
            f.Stop? && f.outcome.Mapped? ==> f.outcome.physical % Pow2(ps) == logical % Pow2(ps)
  {
    forall d: long
      ensures Place(d, ps, logical).physical % Pow2(ps) == logical % Pow2(ps)
    {
      PlaceKeepsOffset(d, ps, logical);
    }
    hide Rd32, Place;
  }

  lemma {:induction false} OffsetKeptFrom(ram: Ram, ps: nat, widths: seq<nat>, shift: int, table: nat, stride: nat,
                                          logical: long)
    ensures var r := WalkFrom(ram, ps, widths, shift, table, stride, logical);
            r.Mapped? ==> r.physical % Pow2(ps) == logical % Pow2(ps)
    decreases |widths|
  {
    hide Rd32, Follow, IndexOf;
    if widths != [] && shift >= widths[0] {
      var index := IndexOf(logical, shift - widths[0], widths[0]);
      FollowKeepsOffset(ram, ps, table + index * stride, stride, |widths| == 1, logical);
      var f := Follow(ram, ps, table + index * stride, stride, |widths| == 1, logical);
      if f.Descend? {
        OffsetKeptFrom(ram, ps, widths[1..], shift - widths[0], f.table, f.stride, logical);
      }
    }
  }

  /** Whatever the tables say, a translated address keeps its offset in the page. */
  lemma OffsetKept(ram: Ram, cpu: Cpu, logical: long, supervisor: bool)
    ensures var r, m := Walk(ram, cpu, logical, supervisor), Pow2(DecodeTc(cpu.tc).ps);
            r.Mapped? ==> r.physical % m == logical % m
  {
    hide WalkFrom, Pow2;
    var tc := DecodeTc(cpu.tc);
    var root := if supervisor && tc.sre then cpu.srp else cpu.crp;
    OffsetKeptFrom(ram, tc.ps, Widths(tc.ti), 32 - tc.skip, root, 4, logical);
  }

  /** The loop: shift, table and stride carried down the levels. */
  method WalkTables(ram: Ram, ps: nat, widths: seq<nat>, start: int, root: nat, logical: long) returns (r: Outcome)
    ensures r == WalkFrom(ram, ps, widths, start, root, 4, logical)
  {
    hide Follow, IndexOf;
    var shift, table, stride, level := start, root, 4, 0;
    while level < |widths|
      invariant 0 <= level <= |widths|
      invariant WalkFrom(ram, ps, widths, start, root, 4, logical) ==
              WalkFrom(ram, ps, widths[level..], shift, table, stride, logical)
    {
      var width := widths[level];
      assert widths[level..][1..] == widths[level + 1..];
      if shift < width {
        return Raises;
      }
      shift := shift - width;
      var index := IndexOf(logical, shift, width);
      match Follow(ram, ps, table + index * stride, stride, level == |widths| - 1, logical) {
        case Stop(outcome) => return outcome;
        case Descend(t, s) => table, stride := t, s;
      }
      level := level + 1;
    }
    return Fails;
  }
}

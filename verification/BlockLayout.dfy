/**
 * Where a volume's logical blocks lie: whole blocks in each cylinder, the remainder
 * of the division spare.
 */
module BlockLayout {
  import opened Arithmetic

  /** Sectors to a block and to a cylinder. */
  datatype Geometry = Geometry(perBlock: nat, perCylinder: nat)

  function BlocksPerCylinder(g: Geometry): nat {
    if g.perCylinder == 0 || g.perBlock == 0 then 0 else g.perCylinder / g.perBlock
  }

  function SectorOf(g: Geometry, daddr: nat): nat {
    if g.perBlock == 1 then daddr
    else
      var per := BlocksPerCylinder(g);
      if per == 0 then daddr else daddr / per * g.perCylinder + daddr % per * g.perBlock
  }

  /** Sector `x` is part of block `daddr`. */
  predicate Holds(g: Geometry, daddr: nat, x: nat) {
    SectorOf(g, daddr) <= x < SectorOf(g, daddr) + g.perBlock
  }

  ghost predicate Disjoint(g: Geometry) {
    forall d, e, x :: d != e && Holds(g, d, x) ==> !Holds(g, e, x)
  }

  /** A cylinder holds at least one block, or blocks are single sectors. */
  predicate Sound(g: Geometry) {
    g.perBlock == 1 || g.perCylinder >= g.perBlock
  }

  predicate Striped(g: Geometry) {
    g.perBlock >= 2 && g.perCylinder >= g.perBlock
  }

  /** The blocks of one cylinder fit in it. */
  lemma PerFits(g: Geometry)
    requires Striped(g)
    ensures BlocksPerCylinder(g) > 0
    ensures BlocksPerCylinder(g) * g.perBlock <= g.perCylinder
    ensures g.perCylinder - BlocksPerCylinder(g) * g.perBlock == g.perCylinder % g.perBlock < g.perBlock
  {
  }

  /** The block a sector belongs to, and whether it belongs to one. */
  function BlockOf(g: Geometry, x: nat): nat
    requires Striped(g)
  {
    x / g.perCylinder * BlocksPerCylinder(g) + x % g.perCylinder / g.perBlock
  }

  predicate Spare(g: Geometry, x: nat)
    requires Striped(g)
  {
    x % g.perCylinder >= BlocksPerCylinder(g) * g.perBlock
  }

  /** Every sector of a block is in the block's cylinder, is not spare, and is mapped
      back to the block. */
  lemma SectorBelongs(g: Geometry, d: nat, x: nat)
    requires Striped(g) && Holds(g, d, x)
    ensures !Spare(g, x) && BlockOf(g, x) == d
    ensures x / g.perCylinder == d / BlocksPerCylinder(g)
  {
    PerFits(g);
    var per, s, c := BlocksPerCylinder(g), g.perBlock, g.perCylinder;
    var cyl, slot, i := d / per, d % per, x - SectorOf(g, d);
    assert d == per * cyl + slot;
    Scale(s, slot, per);
    var within := slot * s + i;
    assert x == cyl * c + within && within < c;
    Division(x, c, cyl, within);
    Division(within, s, slot, i);
  }

  lemma Whole(x: nat, c: nat)
    requires c > 0
    ensures x == x / c * c + x % c
  {
  }

  lemma SlotFits(within: nat, s: nat, per: nat)
    requires s > 0 && within < per * s
    ensures within / s < per
  {
  }

  /** Where the block in a given slot of a given cylinder starts. */
  lemma SectorAt(g: Geometry, cyl: nat, slot: nat)
    requires Striped(g) && slot < BlocksPerCylinder(g)
    ensures SectorOf(g, cyl * BlocksPerCylinder(g) + slot) == cyl * g.perCylinder + slot * g.perBlock
  {
    var per := BlocksPerCylinder(g);
    Division(cyl * per + slot, per, cyl, slot);
  }

  /** And a sector that is not spare is in the block it is mapped to. */
  lemma BelongsToSector(g: Geometry, x: nat)
    requires Striped(g) && !Spare(g, x)
    ensures Holds(g, BlockOf(g, x), x)
  {
    PerFits(g);
    var per, s, c := BlocksPerCylinder(g), g.perBlock, g.perCylinder;
    var cyl, within := x / c, x % c;
    Whole(x, c);
    Whole(within, s);
    SlotFits(within, s, per);
    SectorAt(g, cyl, within / s);
  }

  /** The sectors of all blocks are exactly the sectors that are not spare, each in
      exactly one block; and a cylinder's spare sectors are its last c mod s. */
  lemma Partition(g: Geometry, d: nat, x: nat)
    requires Striped(g)
    ensures Holds(g, d, x) <==> !Spare(g, x) && BlockOf(g, x) == d
    ensures Spare(g, x) <==> x % g.perCylinder >= g.perCylinder - g.perCylinder % g.perBlock
  {
    PerFits(g);
    if Holds(g, d, x) { SectorBelongs(g, d, x); }
    if !Spare(g, x) { BelongsToSector(g, x); }
  }

  /** No block straddles a cylinder. */
  lemma NoStraddle(g: Geometry, d: nat)
    requires Striped(g)
    ensures SectorOf(g, d) / g.perCylinder == (SectorOf(g, d) + g.perBlock - 1) / g.perCylinder
  {
    SectorBelongs(g, d, SectorOf(g, d));
    SectorBelongs(g, d, SectorOf(g, d) + g.perBlock - 1);
  }

  /** Later blocks lie wholly after earlier ones. */
  lemma Increasing(g: Geometry, d: nat, e: nat)
    requires Striped(g) && d < e
    ensures SectorOf(g, d) + g.perBlock <= SectorOf(g, e)
  {
    PerFits(g);
    var per, s, c := BlocksPerCylinder(g), g.perBlock, g.perCylinder;
    var p, q, i, j := d / per, e / per, d % per, e % per;
    Whole(d, per);
    Whole(e, per);
    Ordered(per, p, i, q, j);
    Later(per, s, c, p, i, q, j);
  }

  lemma Later(per: nat, s: nat, c: nat, p: nat, i: nat, q: nat, j: nat)
    requires i < per && per * s <= c && (p < q || (p == q && i < j))
    ensures p * c + i * s + s <= q * c + j * s
  {
    if p < q {
      Scale(c, p, q);
      Scale(s, i, per);
    } else {
      Scale(s, i, j);
    }
  }

  lemma Ordered(per: nat, p: nat, i: nat, q: nat, j: nat)
    requires i < per && j < per && p * per + i < q * per + j
    ensures p < q || (p == q && i < j)
  {
    Scale(per, q, p);
  }

  /** Blocks never share a sector exactly when the geometry is sound: with a cylinder
      smaller than a block the map is the identity and neighbours overlap. */
  lemma DisjointIffSound(g: Geometry)
    requires g.perBlock >= 1
    ensures Disjoint(g) <==> Sound(g)
  {
    if Sound(g) {
      forall d, e, x | d != e && Holds(g, d, x)
        ensures !Holds(g, e, x)
      {
        if g.perBlock >= 2 {
          if d < e { Increasing(g, d, e); } else { Increasing(g, e, d); }
        }
      }
    } else {
      assert BlocksPerCylinder(g) == 0;
      assert Holds(g, 0, 1) && Holds(g, 1, 1);
    }
  }
}

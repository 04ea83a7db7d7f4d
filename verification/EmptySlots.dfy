/** The addresses of empty expansion slots a driver has touched, first seen first. */
module EmptySlots {
  import opened Words

  const SLOTS: nat := 16

  datatype Noted = Noted(list: seq<long>, dropped: nat)

  function Note(n: Noted, address: long): Noted {
    if address in n.list then n
    else if |n.list| >= SLOTS then n.(dropped := n.dropped + 1)
    else n.(list := n.list + [address])
  }

  function NoteAll(accesses: seq<long>): Noted {
    if accesses == [] then Noted([], 0)
    else Note(NoteAll(accesses[..|accesses| - 1]), accesses[|accesses| - 1])
  }

  /** Each address once, in the order first seen. */
  function Distinct(s: seq<long>): seq<long> {
    if s == [] then []
    else
      var before, last := Distinct(s[..|s| - 1]), s[|s| - 1];
      if last in before then before else before + [last]
  }

  function First(s: seq<long>): seq<long> {
    if |s| <= SLOTS then s else s[..SLOTS]
  }

  function CountOutside(s: seq<long>, kept: seq<long>): nat {
    if s == [] then 0
    else CountOutside(s[..|s| - 1], kept) + if s[|s| - 1] in kept then 0 else 1
  }

  lemma {:induction false} AllSeen(s: seq<long>)
    ensures forall a :: a in Distinct(s) <==> a in s
    ensures forall i, j :: 0 <= i < j < |Distinct(s)| ==> Distinct(s)[i] != Distinct(s)[j]
  {
    if s != [] {
      AllSeen(s[..|s| - 1]);
      assert s == s[..|s| - 1] + [s[|s| - 1]];
    }
  }

  lemma {:induction false} NoneOutside(s: seq<long>, kept: seq<long>)
    requires forall a :: a in s ==> a in kept
    ensures CountOutside(s, kept) == 0
  {
    if s != [] { NoneOutside(s[..|s| - 1], kept); }
  }

  /** The list is the first sixteen distinct addresses in the order first seen, and the
      tally is of the accesses to all other addresses: repeats of an address that did
      not fit count every time. */
  lemma {:induction false} ListIsFirstDistinct(accesses: seq<long>)
    ensures NoteAll(accesses) == Noted(First(Distinct(accesses)), CountOutside(accesses, First(Distinct(accesses))))
  {
    if accesses != [] {
      var n := |accesses| - 1;
      var before, last := accesses[..n], accesses[n];
      ListIsFirstDistinct(before);
      AllSeen(before);
      var d, all := Distinct(before), Distinct(accesses);
      if last in First(d) {
        assert First(all) == First(d);
      } else if |d| >= SLOTS {
        assert First(all) == First(d);
      } else {
        assert all == d + [last] && First(d) == d && First(all) == all;
        NoneOutside(before, all);
        NoneOutside(before, d);
      }
    }
  }

  class EmptyList {
    const addresses: array<long>
    var distinct: nat
    var dropped: nat

    ghost predicate Valid()
      reads this
    {
      addresses.Length == SLOTS && distinct <= SLOTS
    }

    function View(): Noted
      requires Valid()
      reads this, addresses
    {
      Noted(addresses[..distinct], dropped)
    }

    constructor ()
      ensures Valid() && View() == NoteAll([]) && fresh(addresses)
    {
      addresses, distinct, dropped := new long[SLOTS](i => 0), 0, 0;
    }

    method NoteAddress(address: long)
      requires Valid()
      modifies this, addresses
      ensures Valid() && View() == Note(old(View()), address)
    {
      for i := 0 to distinct
        invariant address !in addresses[..i]
      {
        if addresses[i] == address {
          assert address in addresses[..distinct];
          return;
        }
      }
      if distinct >= addresses.Length {
        dropped := dropped + 1;
        return;
      }
      addresses[distinct] := address;
      distinct := distinct + 1;
    }
  }
}

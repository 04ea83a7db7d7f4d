/**
 * ROM sets shared by alias: repeated passes over the driver's alias table until the
 * chains have settled, and no further than the table's own length.
 */
module RomAliases {
  import opened Options

  /** The set a name leads to in at most `n` alias steps. A defined set is never
      looked past. */
  function Leads<K, V>(parent: map<K, K>, defined: map<K, V>, name: K, n: nat): Option<V> {
    if name in defined then Some(defined[name])
    else if n == 0 || name !in parent then None
    else Leads(parent, defined, parent[name], n - 1)
  }

  /** `sets` holds exactly the names whose chain reaches a defined set, each with that
      set's list: nothing for a cycle or a chain that ends nowhere. */
  ghost predicate IsResolved<K(!new), V>(parent: map<K, K>, defined: map<K, V>, sets: map<K, V>) {
    && (forall k :: k in sets ==> exists n: nat :: Leads(parent, defined, k, n) == Some(sets[k]))
    && (forall k, n: nat :: Leads(parent, defined, k, n).Some? ==> k in sets)
  }

  lemma {:induction false} LeadsFurther<K, V>(parent: map<K, K>, defined: map<K, V>, name: K, n: nat, m: nat)
    requires n <= m && Leads(parent, defined, name, n).Some?
    ensures Leads(parent, defined, name, m) == Leads(parent, defined, name, n)
    decreases n
  {
    if name !in defined {
      LeadsFurther(parent, defined, parent[name], n - 1, m - 1);
    }
  }

  /** However many steps are taken, a name leads to one set at most. */
  lemma LeadsToOne<K, V>(parent: map<K, K>, defined: map<K, V>, name: K, n: nat, m: nat)
    requires Leads(parent, defined, name, n).Some? && Leads(parent, defined, name, m).Some?
    ensures Leads(parent, defined, name, n) == Leads(parent, defined, name, m)
  {
    if n <= m { LeadsFurther(parent, defined, name, n, m); } else { LeadsFurther(parent, defined, name, m, n); }
  }

  /** So the outcome does not depend on the order the aliases were read in. */
  lemma ResolvedIsUnique<K(!new), V>(parent: map<K, K>, defined: map<K, V>, a: map<K, V>, b: map<K, V>)
    requires IsResolved(parent, defined, a) && IsResolved(parent, defined, b)
    ensures a == b
  {
    forall k | k in a
      ensures k in b && a[k] == b[k]
    {
      var n: nat :| Leads(parent, defined, k, n) == Some(a[k]);
      var m: nat :| Leads(parent, defined, k, m) == Some(b[k]);
      LeadsToOne(parent, defined, k, n, m);
    }
    assert forall k :: k in b ==> k in a;
  }

  /** A name on a cycle of aliases, none of them defined. */
  ghost predicate OnCycle<K(!new), V>(parent: map<K, K>, defined: map<K, V>, cycle: set<K>) {
    forall k :: k in cycle ==> k !in defined && k in parent && parent[k] in cycle
  }

  lemma {:induction false} CycleLeadsNowhere<K(!new), V>(parent: map<K, K>, defined: map<K, V>, cycle: set<K>,
                                                         name: K, n: nat)
    requires OnCycle(parent, defined, cycle) && name in cycle
    ensures Leads(parent, defined, name, n).None?
  {
    if n > 0 {
      CycleLeadsNowhere(parent, defined, cycle, parent[name], n - 1);
    }
  }

  lemma CyclesStayAbsent<K(!new), V>(parent: map<K, K>, defined: map<K, V>, sets: map<K, V>, cycle: set<K>, name: K)
    requires IsResolved(parent, defined, sets) && OnCycle(parent, defined, cycle) && name in cycle
    ensures name !in sets
  {
    if name in sets {
      var n: nat :| Leads(parent, defined, name, n) == Some(sets[name]);
      CycleLeadsNowhere(parent, defined, cycle, name, n);
    }
  }

  // ----- the passes ---------------------------------------------------------------------

  /** Everything in `sets` is owed to a chain, and nothing defined has changed. */
  ghost predicate Earned<K(!new), V>(parent: map<K, K>, defined: map<K, V>, sets: map<K, V>) {
    && (forall k :: k in defined ==> k in sets && sets[k] == defined[k])
    && (forall k :: k in sets ==> exists n: nat :: Leads(parent, defined, k, n) == Some(sets[k]))
  }

  /** No alias is waiting on a set that is there. */
  ghost predicate Settled<K(!new), V>(parent: map<K, K>, sets: map<K, V>) {
    forall k :: k in parent && k !in sets ==> parent[k] !in sets
  }

  lemma {:induction false} SettledHolds<K(!new), V>(parent: map<K, K>, defined: map<K, V>, sets: map<K, V>,
                                                    name: K, n: nat)
    requires Earned(parent, defined, sets) && Settled(parent, sets) && Leads(parent, defined, name, n).Some?
    ensures name in sets
    decreases n
  {
    if name !in defined {
      SettledHolds(parent, defined, sets, parent[name], n - 1);
    }
  }

  lemma EarnMore<K(!new), V>(parent: map<K, K>, defined: map<K, V>, sets: map<K, V>, clone: K)
    requires Earned(parent, defined, sets) && clone in parent && clone !in sets && parent[clone] in sets
    ensures Earned(parent, defined, sets[clone := sets[parent[clone]]])
  {
    var n: nat :| Leads(parent, defined, parent[clone], n) == Some(sets[parent[clone]]);
    assert Leads(parent, defined, clone, n + 1) == Some(sets[parent[clone]]);
    var t := sets[clone := sets[parent[clone]]];
    forall k | k in t
      ensures exists n: nat :: Leads(parent, defined, k, n) == Some(t[k])
    {
      if k != clone {
        assert k in sets;
      }
    }
  }

  /** One pass over the aliases that had no set when it began. Either it found nothing
      to do, and then nothing ever will, or fewer are waiting. */
  method Pass<K(!new, ==), V>(parent: map<K, K>, unresolved: seq<K>, sets: map<K, V>, ghost defined: map<K, V>)
    returns (out: map<K, V>)
    requires Earned(parent, defined, sets)
    requires forall i :: 0 <= i < |unresolved| ==> unresolved[i] in parent && unresolved[i] !in sets
    requires forall i, j :: 0 <= i < j < |unresolved| ==> unresolved[i] != unresolved[j]
    requires forall k :: k in parent && k !in sets ==> k in unresolved
    ensures Earned(parent, defined, out) && sets.Keys <= out.Keys
    ensures out == sets ==> Settled(parent, out)
    ensures out != sets ==> !Settled(parent, sets) && exists k :: k in parent && k !in sets && k in out
  {
    out := sets;
    var i := 0;
    while i < |unresolved|
      invariant 0 <= i <= |unresolved|
      invariant Earned(parent, defined, out) && sets.Keys <= out.Keys
      invariant forall j :: i <= j < |unresolved| ==> unresolved[j] !in out
      invariant out == sets ==> forall j :: 0 <= j < i ==> parent[unresolved[j]] !in sets
      invariant out != sets ==> !Settled(parent, sets) && exists k :: k in parent && k !in sets && k in out
    {
      var clone := unresolved[i];
      if parent[clone] in out {
        EarnMore(parent, defined, out, clone);
        out := out[clone := out[parent[clone]]];
        assert clone in parent && clone !in sets && clone in out;
      }
      i := i + 1;
    }
    if out == sets {
      forall k | k in parent && k !in sets
        ensures parent[k] !in sets
      {
        assert k in unresolved;
      }
    }
  }

  /** The aliases, in table order, with no set yet. */
  function Waiting<K(!new, ==), V>(order: seq<K>, sets: map<K, V>): (w: seq<K>)
    ensures forall k :: k in w <==> k in order && k !in sets
    ensures (forall i, j :: 0 <= i < j < |order| ==> order[i] != order[j]) ==>
            forall i, j :: 0 <= i < j < |w| ==> w[i] != w[j]
  {
    if order == [] then []
    else
      var rest := Waiting(order[1..], sets);
      assert forall i :: 0 < i < |order| ==> order[i] == order[1..][i - 1];
      if order[0] in sets then rest else [order[0]] + rest
  }

  ghost function Missing<K, V>(parent: map<K, K>, sets: map<K, V>): nat { |parent.Keys - sets.Keys| }

  lemma MissingShrinks<K, V>(parent: map<K, K>, a: map<K, V>, b: map<K, V>)
    requires a.Keys <= b.Keys && exists k :: k in parent && k !in a && k in b
    ensures Missing(parent, b) < Missing(parent, a)
  {
    var k :| k in parent && k !in a && k in b;
    assert k in parent.Keys - a.Keys;
    Smaller(parent.Keys - b.Keys, parent.Keys - a.Keys - {k});
  }

  lemma MissingAtMost<K, V>(parent: map<K, K>, sets: map<K, V>)
    ensures Missing(parent, sets) <= |parent|
  {
  }

  lemma {:induction false} Smaller<K>(a: set<K>, b: set<K>)
    requires a <= b
    ensures |a| <= |b|
  {
    if a != {} {
      var k :| k in a;
      Smaller(a - {k}, b - {k});
    }
  }

  /** Within one pass more than there are aliases, every chain that reaches a defined
      set has been followed to it, whatever the order of the table. */
  method Resolve<K(!new, ==), V>(order: seq<K>, parent: map<K, K>, defined: map<K, V>) returns (sets: map<K, V>)
    requires forall k :: k in order <==> k in parent
    requires forall i, j :: 0 <= i < j < |order| ==> order[i] != order[j]
    requires |order| == |parent|
    ensures IsResolved(parent, defined, sets)
    ensures forall k :: k in defined ==> k in sets && sets[k] == defined[k]
  {
    hide Earned, Settled, IsResolved, Missing;
    sets := defined;
    Start(parent, defined);
    MissingAtMost(parent, sets);
    var i := 0;
    while i < |order| + 1
      invariant 0 <= i <= |order| + 1
      invariant Earned(parent, defined, sets)
      invariant Settled(parent, sets) || Missing(parent, sets) <= |order| - i
    {
      var unresolved := Waiting(order, sets);
      if unresolved == [] {
        NoneWaiting(order, parent, sets);
        break;
      }
      var before := sets;
      sets := Pass(parent, unresolved, sets, defined);
      if sets != before {
        MissingShrinks(parent, before, sets);
      }
      i := i + 1;
    }
    Finish(parent, defined, sets);
  }

  lemma Start<K(!new), V>(parent: map<K, K>, defined: map<K, V>)
    ensures Earned(parent, defined, defined)
  {
    forall k | k in defined
      ensures exists n: nat :: Leads(parent, defined, k, n) == Some(defined[k])
    {
      assert Leads(parent, defined, k, 0) == Some(defined[k]);
    }
  }

  lemma NoneWaiting<K(!new), V>(order: seq<K>, parent: map<K, K>, sets: map<K, V>)
    requires (forall k :: k in order <==> k in parent) && Waiting(order, sets) == []
    ensures Settled(parent, sets)
  {
  }

  lemma Finish<K(!new), V>(parent: map<K, K>, defined: map<K, V>, sets: map<K, V>)
    requires Earned(parent, defined, sets) && Settled(parent, sets)
    ensures IsResolved(parent, defined, sets) && forall k :: k in defined ==> k in sets && sets[k] == defined[k]
  {
    forall k, n: nat | Leads(parent, defined, k, n).Some?
      ensures k in sets
    {
      SettledHolds(parent, defined, sets, k, n);
    }
  }
}

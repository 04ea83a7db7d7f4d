/**
 * Recursive-descent code discovery over a ROM image: a worklist of branch targets,
 * each followed straight on until it leaves the image, meets seen code, fails to
 * decode, or reaches an instruction that does not fall through. The decoder is any
 * function at all.
 */
module CodeTracer {
  import opened Options

  /** What tracing needs of an instruction; targets are absolute addresses. */
  datatype Insn = Insn(size: nat, targets: seq<int>, call: bool, ends: bool)

  datatype Label = Sub(address: int) | Loc(address: int)

  type Decoder = int -> Option<Insn>

  /** The image: its decoder, load address and length. */
  datatype Image = Image(decode: Decoder, base: int, limit: int)

  predicate InImage(m: Image, o: int) { 0 <= o < m.limit }

  predicate Traceable(m: Image, o: int) { InImage(m, o) && o % 2 == 0 }

  predicate Targets(m: Image, s: int, o: int) {
    m.decode(s).Some? && InImage(m, o) && o + m.base in m.decode(s).value.targets
  }

  /** Control can pass from the instruction at `s` to offset `o`. */
  predicate Flows(m: Image, s: int, o: int) {
    Targets(m, s, o) || (m.decode(s).Some? && !m.decode(s).value.ends && o == s + m.decode(s).value.size)
  }

  /** Closed under control flow, and holding every root that can be traced. */
  ghost predicate Closed(m: Image, roots: seq<int>, c: set<int>) {
    && (forall r :: r in roots && Traceable(m, r) ==> r in c)
    && (forall s, o :: s in c && Flows(m, s, o) && Traceable(m, o) ==> o in c)
  }

  /** The least closed set. */
  ghost predicate IsReachable(m: Image, roots: seq<int>, seen: set<int>) {
    Closed(m, roots, seen) && forall c :: Closed(m, roots, c) ==> seen <= c
  }

  /** There is only one, so this names what the tracer computes. */
  lemma ReachableIsUnique(m: Image, roots: seq<int>, a: set<int>, b: set<int>)
    requires IsReachable(m, roots, a) && IsReachable(m, roots, b)
    ensures a == b
  {
  }

  /** Everything reachable is reached by a path of control flow from a root. */
  ghost predicate IsPath(m: Image, roots: seq<int>, path: seq<int>) {
    && path != [] && path[0] in roots
    && (forall i :: 0 <= i < |path| ==> Traceable(m, path[i]))
    && (forall i :: 0 < i < |path| ==> Flows(m, path[i - 1], path[i]))
  }

  lemma {:induction false} PathIsReachable(m: Image, roots: seq<int>, seen: set<int>, path: seq<int>)
    requires IsReachable(m, roots, seen) && IsPath(m, roots, path)
    ensures path[|path| - 1] in seen
  {
    if |path| > 1 {
      var p := path[..|path| - 1];
      assert IsPath(m, roots, p);
      PathIsReachable(m, roots, seen, p);
      assert Flows(m, path[|path| - 2], path[|path| - 1]);
    }
  }

  lemma PathGrows(m: Image, roots: seq<int>, p: seq<int>, t: int)
    requires IsPath(m, roots, p) && Flows(m, p[|p| - 1], t) && Traceable(m, t)
    ensures IsPath(m, roots, p + [t]) && (p + [t])[|p + [t]| - 1] == t
  {
  }

  /** And only such offsets: the ones on paths are closed already. */
  lemma ReachableHasPath(m: Image, roots: seq<int>, seen: set<int>, o: int) returns (path: seq<int>)
    requires IsReachable(m, roots, seen) && o in seen
    ensures IsPath(m, roots, path) && path[|path| - 1] == o
  {
    hide Flows, Traceable;
    var c := set x | x in seen && exists p :: IsPath(m, roots, p) && p[|p| - 1] == x;
    forall r | r in roots && Traceable(m, r)
      ensures r in c
    {
      assert IsPath(m, roots, [r]) && [r][|[r]| - 1] == r;
    }
    forall s, t | s in c && Flows(m, s, t) && Traceable(m, t)
      ensures t in c
    {
      var p :| IsPath(m, roots, p) && p[|p| - 1] == s;
      PathGrows(m, roots, p, t);
    }
    assert seen <= c;
    path :| IsPath(m, roots, path) && path[|path| - 1] == o;
  }

  /** The instruction at `s` targets `o`, or runs on into it. */
  predicate LeadsTo(m: Image, s: int, i: Insn, o: int) {
    o + m.base in i.targets || (!i.ends && o == s + i.size)
  }

  /** The set from inside: an offset is in it exactly when it is an even offset of the image
      and a root, or some instruction in the set targets it or runs on into it. */
  lemma WaysIn(m: Image, roots: seq<int>, seen: set<int>, o: int)
    requires IsReachable(m, roots, seen)
    ensures o in seen <==>
            && 0 <= o < m.limit && o % 2 == 0
            && (o in roots || exists s :: s in seen && m.decode(s).Some? && LeadsTo(m, s, m.decode(s).value, o))
  {
    if o in seen {
      var c := seen - {o};
      if !Traceable(m, o) || (o !in roots && forall s :: s in seen ==> !Flows(m, s, o)) {
        assert Closed(m, roots, c);
      }
    }
  }

  // ----- cross references -----------------------------------------------------------

  function Refs(x: map<int, set<int>>, o: int): set<int> { if o in x then x[o] else {} }

  /** `x` is `was` with every reference out of `done` added, and no other. */
  ghost predicate RefsAdded(m: Image, was: map<int, set<int>>, x: map<int, set<int>>, done: set<int>) {
    forall o, s :: s in Refs(x, o) <==> s in Refs(was, o) || (s in done && Targets(m, s, o))
  }

  /** Labels stand where they stood; a new one is at a target, and is a subroutine's
      only if some instruction that targets it is a call. */
  ghost predicate LabelsAdded(m: Image, was: map<int, Label>, x: map<int, Label>, done: set<int>) {
    && (forall o :: o in was ==> o in x && x[o] == was[o])
    && (forall o, s :: s in done && Targets(m, s, o) ==> o in x)
    && (forall o :: o in x && o !in was ==>
          exists s :: s in done && Targets(m, s, o)
                      && x[o] == Fresh(m, o, m.decode(s).value.call))
  }

  /** Nothing owed is lost: every root and every successor of seen code has been
      seen or is queued. */
  ghost predicate Frontier(m: Image, roots: seq<int>, seen: set<int>, pending: seq<int>) {
    && (forall r :: r in roots && Traceable(m, r) ==> r in seen || r in pending)
    && (forall s, o :: s in seen && Flows(m, s, o) && Traceable(m, o) ==> o in seen || o in pending)
  }

  /** Nothing extra is gathered: whatever is closed holds all of it. */
  ghost predicate Bounded(m: Image, roots: seq<int>, seen: set<int>, pending: seq<int>) {
    && (forall o :: o in seen ==> Traceable(m, o))
    && (forall c, o :: Closed(m, roots, c) && o in seen ==> o in c)
    && (forall c, o :: Closed(m, roots, c) && o in pending && Traceable(m, o) ==> o in c)
  }

  /** One more instruction seen, its targets queued and its fall-through next. */
  lemma Follow(m: Image, roots: seq<int>, seen: set<int>, pending: seq<int>, off: int, queue: seq<int>, next: seq<int>)
    requires Frontier(m, roots, seen, pending + [off]) && Bounded(m, roots, seen, pending + [off]) && Traceable(m, off)
    requires pending <= queue && forall o :: o in queue[|pending|..] <==> Targets(m, off, o)
    requires forall o :: o in next ==> Flows(m, off, o)
    requires forall o :: Flows(m, off, o) && Traceable(m, o) ==> Targets(m, off, o) || o in next
    ensures Frontier(m, roots, seen + {off}, queue + next) && Bounded(m, roots, seen + {off}, queue + next)
  {
  }

  /** A followed run that stops on seen or untraceable ground owes nothing. */
  lemma Stop(m: Image, roots: seq<int>, seen: set<int>, pending: seq<int>, off: int)
    requires Frontier(m, roots, seen, pending + [off]) && Bounded(m, roots, seen, pending + [off])
    requires off in seen || !Traceable(m, off)
    ensures Frontier(m, roots, seen, pending) && Bounded(m, roots, seen, pending)
  {
  }

  lemma Begin(m: Image, roots: seq<int>)
    ensures Frontier(m, roots, {}, roots) && Bounded(m, roots, {}, roots)
  {
  }

  lemma Done(m: Image, roots: seq<int>, seen: set<int>)
    requires Frontier(m, roots, seen, []) && Bounded(m, roots, seen, [])
    ensures IsReachable(m, roots, seen) && forall o :: o in seen ==> Traceable(m, o)
  {
    assert forall c :: Closed(m, roots, c) ==> forall o :: o in seen ==> o in c;
  }

  /** Two rounds of labelling are one. */
  lemma LabelsCompose(m: Image, a: map<int, Label>, b: map<int, Label>, c: map<int, Label>, done: set<int>, off: int)
    requires LabelsAdded(m, a, b, done) && (if m.decode(off).Some? then LabelsAdded(m, b, c, {off}) else c == b)
    ensures LabelsAdded(m, a, c, done + {off})
  {
  }

  /** A new label names the address it stands at, and is a subroutine's or a location's by
      an instruction that targets it. */
  lemma NewLabels(m: Image, was: map<int, Label>, x: map<int, Label>, done: set<int>, o: int)
    requires LabelsAdded(m, was, x, done) && o in x && o !in was
    ensures x[o].address == o + m.base
    ensures exists s :: s in done && m.decode(s).Some? && o + m.base in m.decode(s).value.targets
                        && (m.decode(s).value.call <==> x[o].Sub?)
  {
    var s :| s in done && Targets(m, s, o) && x[o] == Fresh(m, o, m.decode(s).value.call);
    assert m.decode(s).Some?;
  }

  predicate Noted(m: Image, done: seq<int>, o: int) { InImage(m, o) && o + m.base in done }

  lemma NotedSnoc(m: Image, targets: seq<int>, i: nat)
    requires i < |targets|
    ensures forall o :: Noted(m, targets[..i + 1], o) <==>
            Noted(m, targets[..i], o) || (InImage(m, o) && o == targets[i] - m.base)
  {
  }

  /** `x` is `was` with references from `off` to all of `added`, and no other. */
  ghost predicate RefsTo(was: map<int, set<int>>, x: map<int, set<int>>, off: int, added: seq<int>) {
    forall p, s :: s in Refs(x, p) <==> s in Refs(was, p) || (s == off && p in added)
  }

  /** `x` is `was` with a label for each of `added` that had none. */
  ghost predicate Labelled(m: Image, was: map<int, Label>, x: map<int, Label>, added: seq<int>, call: bool) {
    && (forall o :: o in x <==> o in was || o in added)
    && (forall o :: o in x ==> x[o] == if o in was then was[o] else Fresh(m, o, call))
  }

  function Fresh(m: Image, o: int, call: bool): Label { if call then Sub(o + m.base) else Loc(o + m.base) }

  lemma NothingNoted(m: Image, off: int, targets: seq<int>, x: map<int, set<int>>, l: map<int, Label>, call: bool)
    ensures forall o :: !Noted(m, targets[..0], o)
    ensures RefsTo(x, x, off, []) && Labelled(m, l, l, [], call)
  {
  }

  lemma RefsNext(was: map<int, set<int>>, x: map<int, set<int>>, y: map<int, set<int>>, off: int, added: seq<int>,
                 o: int)
    requires RefsTo(was, x, off, added)
    requires forall p, s :: s in Refs(y, p) <==> s in Refs(x, p) || (s == off && p == o)
    ensures RefsTo(was, y, off, added + [o])
  {
    hide Refs;
  }

  lemma LabelledNext(m: Image, was: map<int, Label>, x: map<int, Label>, y: map<int, Label>, added: seq<int>, o: int,
                     call: bool)
    requires Labelled(m, was, x, added, call) && y == if o in x then x else x[o := Fresh(m, o, call)]
    ensures Labelled(m, was, y, added + [o], call)
  {
  }

  lemma AllNoted(m: Image, off: int, added: seq<int>)
    requires m.decode(off).Some? && forall o :: o in added <==> Noted(m, m.decode(off).value.targets, o)
    ensures forall o :: o in added <==> Targets(m, off, o)
  {
  }

  lemma FinishNoting(m: Image, off: int, added: seq<int>, refs: map<int, set<int>>, x: map<int, set<int>>,
                     marks: map<int, Label>, l: map<int, Label>)
    requires m.decode(off).Some? && forall o :: o in added <==> Targets(m, off, o)
    requires RefsTo(refs, x, off, added) && Labelled(m, marks, l, added, m.decode(off).value.call)
    ensures forall p, s :: s in Refs(x, p) <==> s in Refs(refs, p) || (s == off && Targets(m, off, p))
    ensures LabelsAdded(m, marks, l, {off})
  {
    hide Refs, Targets;
  }

  class Listing {
    var insns: map<int, Insn>
    var labels: map<int, Label>
    var xrefs: map<int, set<int>>

    constructor ()
      ensures insns == map[] && labels == map[] && xrefs == map[]
    {
      insns, labels, xrefs := map[], map[], map[];
    }

    /** Record one target of the instruction at `off`. */
    method NoteOne(m: Image, off: int, o: int, call: bool)
      modifies `labels, `xrefs
      ensures forall p, s :: s in Refs(xrefs, p) <==> s in Refs(old(xrefs), p) || (s == off && p == o)
      ensures labels == if o in old(labels) then old(labels)
                        else old(labels)[o := Fresh(m, o, call)]
    {
      xrefs := xrefs[o := Refs(xrefs, o) + {off}];
      if o !in labels {
        labels := labels[o := Fresh(m, o, call)];
      }
    }

    /** Record every in-image target of one instruction and queue it. */
    method NoteTargets(m: Image, off: int, pending: seq<int>) returns (queue: seq<int>)
      requires m.decode(off).Some?
      modifies `labels, `xrefs
      ensures pending <= queue
      ensures forall o :: o in queue[|pending|..] <==> Targets(m, off, o)
      ensures forall p, s :: s in Refs(xrefs, p) <==> s in Refs(old(xrefs), p) || (s == off && Targets(m, off, p))
      ensures LabelsAdded(m, old(labels), labels, {off})
    {
      hide Refs, LabelsAdded, RefsTo, Labelled;
      var insn := m.decode(off).value;
      var i := 0;
      queue := pending;
      ghost var added: seq<int> := [];
      NothingNoted(m, off, insn.targets, xrefs, labels, insn.call);
      while i < |insn.targets|
        invariant 0 <= i <= |insn.targets| && queue == pending + added
        invariant forall o :: o in added <==> Noted(m, insn.targets[..i], o)
        invariant RefsTo(old(xrefs), xrefs, off, added)
        invariant Labelled(m, old(labels), labels, added, insn.call)
      {
        var o := insn.targets[i] - m.base;
        NotedSnoc(m, insn.targets, i);
        if 0 <= o < m.limit {
          ghost var refs, marks := xrefs, labels;
          NoteOne(m, off, o, insn.call);
          RefsNext(old(xrefs), refs, xrefs, off, added, o);
          LabelledNext(m, old(labels), marks, labels, added, o, insn.call);
          queue := queue + [o];
          added := added + [o];
        }
        i := i + 1;
      }
      assert insn.targets[..i] == insn.targets && queue[|pending|..] == added;
      AllNoted(m, off, added);
      FinishNoting(m, off, added, old(xrefs), xrefs, old(labels), labels);
    }

    ghost predicate Recorded(m: Image, seen: set<int>, wasInsns: map<int, Insn>, wasRefs: map<int, set<int>>,
                             wasLabels: map<int, Label>)
      reads this
    {
      && (forall o :: o in insns <==> o in wasInsns || (o in seen && m.decode(o).Some?))
      && (forall o :: o in seen && m.decode(o).Some? ==> insns[o] == m.decode(o).value)
      && RefsAdded(m, wasRefs, xrefs, seen)
      && LabelsAdded(m, wasLabels, labels, seen)
    }

    /** Visit one offset: decode it, record it, queue its targets. */
    method Visit(m: Image, off: int, pending: seq<int>, ghost seen: set<int>, ghost wasInsns: map<int, Insn>,
                 ghost wasRefs: map<int, set<int>>, ghost wasLabels: map<int, Label>)
      returns (queue: seq<int>)
      requires Recorded(m, seen, wasInsns, wasRefs, wasLabels)
      modifies this
      ensures Recorded(m, seen + {off}, wasInsns, wasRefs, wasLabels)
      ensures pending <= queue && forall o :: o in queue[|pending|..] <==> Targets(m, off, o)
    {
      queue := pending;
      if m.decode(off).Some? {
        insns := insns[off := m.decode(off).value];
        queue := NoteTargets(m, off, pending);
      }
      LabelsCompose(m, wasLabels, old(labels), labels, seen, off);
      assert RefsAdded(m, wasRefs, xrefs, seen + {off});
      assert forall o :: o in insns <==> o in wasInsns || (o in seen + {off} && m.decode(o).Some?);
      assert forall o :: o in seen + {off} && m.decode(o).Some? ==> insns[o] == m.decode(o).value;
    }

    /** The worklist. It ends for every decoder and every root list; what it has seen
        is exactly what control flow reaches, and the references are exactly the
        reached instructions' own. */
    method Trace(m: Image, roots: seq<int>) returns (seen: set<int>)
      modifies this
      ensures IsReachable(m, roots, seen)
      ensures forall o :: o in seen ==> Traceable(m, o)
      ensures Recorded(m, seen, old(insns), old(xrefs), old(labels))
    {
      hide Frontier, Bounded, Recorded, IsReachable;
      var pending := roots;
      seen := {};
      ghost var all := set o: int | 0 <= o < m.limit && Traceable(m, o);
      Begin(m, roots);
      StartRecord(m);
      while pending != []
        invariant seen <= all
        invariant Frontier(m, roots, seen, pending) && Bounded(m, roots, seen, pending)
        invariant Recorded(m, seen, old(insns), old(xrefs), old(labels))
        decreases all - seen, |pending|
      {
        var off := pending[|pending| - 1];
        assert pending == pending[..|pending| - 1] + [off];
        pending := pending[..|pending| - 1];
        ghost var before, popped := seen, pending;
        var going := true;
        while going && Traceable(m, off) && off !in seen
          invariant before <= seen <= all && (seen == before ==> pending == popped)
          invariant Frontier(m, roots, seen, pending + if going then [off] else [])
          invariant Bounded(m, roots, seen, pending + if going then [off] else [])
          invariant Recorded(m, seen, old(insns), old(xrefs), old(labels))
          decreases all - seen
        {
          var queue := Visit(m, off, pending, seen, old(insns), old(xrefs), old(labels));
          going := m.decode(off).Some? && !m.decode(off).value.ends;
          var next := if going then off + m.decode(off).value.size else off;
          Follow(m, roots, seen, pending, off, queue, if going then [next] else []);
          seen := seen + {off};
          pending := queue;
          off := next;
        }
        if going {
          Stop(m, roots, seen, pending, off);
        }
        assert pending + [] == pending;
      }
      Done(m, roots, seen);
    }

    lemma StartRecord(m: Image)
      ensures Recorded(m, {}, insns, xrefs, labels)
    {
    }
  }
}

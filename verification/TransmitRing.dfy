/**
 * A serial transmitter's outgoing bytes: a ring of sixty-four that loses its oldest
 * when nobody collects.
 */
module TransmitRing {
  import opened Words

  const CAPACITY: nat := 64

  datatype Op = Shift(b: byte) | Take

  /** The waiting bytes oldest first, all collected so far, and how many were lost. */
  datatype Line = Line(waiting: seq<byte>, taken: seq<byte>, lost: nat)

  function Keep(s: seq<byte>): seq<byte> {
    if |s| <= CAPACITY then s else s[|s| - CAPACITY..]
  }

  function Apply(l: Line, op: Op): Line {
    match op
    case Shift(b) => Line(Keep(l.waiting + [b]), l.taken, if |l.waiting| >= CAPACITY then l.lost + 1 else l.lost)
    case Take =>
      if l.waiting == [] then l else Line(l.waiting[1..], l.taken + [l.waiting[0]], l.lost)
  }

  function Run(ops: seq<Op>): Line {
    if ops == [] then Line([], [], 0) else Apply(Run(ops[..|ops| - 1]), ops[|ops| - 1])
  }

  function Shifted(ops: seq<Op>): seq<byte> {
    if ops == [] then []
    else Shifted(ops[..|ops| - 1]) + if ops[|ops| - 1].Shift? then [ops[|ops| - 1].b] else []
  }

  /** `t` is `s` with some elements struck out; `at` says where each one stood. */
  ghost predicate StruckFrom(t: seq<byte>, s: seq<byte>, at: seq<nat>) {
    && |at| == |t|
    && (forall i :: 0 <= i < |at| ==> at[i] < |s| && s[at[i]] == t[i])
    && (forall i, j :: 0 <= i < j < |at| ==> at[i] < at[j])
  }

  /** What waits is the newest of what was shifted out; collected, waiting and lost
      account for all of it; and what was collected stood, in order, before all that
      waits. */
  ghost predicate Account(l: Line, s: seq<byte>, at: seq<nat>) {
    && |l.waiting| <= CAPACITY && |l.waiting| <= |s| && l.waiting == s[|s| - |l.waiting|..]
    && |l.taken| + |l.waiting| + l.lost == |s|
    && StruckFrom(l.taken, s, at)
    && forall i :: 0 <= i < |at| ==> at[i] < |s| - |l.waiting|
  }

  lemma ShiftKeepsAccount(l: Line, s: seq<byte>, at: seq<nat>, b: byte)
    requires Account(l, s, at)
    ensures Account(Apply(l, Shift(b)), s + [b], at)
  {
  }

  lemma TakeKeepsAccount(l: Line, s: seq<byte>, at: seq<nat>)
    requires Account(l, s, at) && l.waiting != []
    ensures Account(Apply(l, Take), s, at + [|s| - |l.waiting|])
  {
  }

  /** After every run of shifts and collections the account balances. */
  lemma {:induction false} RingHistory(ops: seq<Op>) returns (at: seq<nat>)
    ensures Account(Run(ops), Shifted(ops), at)
  {
    if ops == [] {
      at := [];
    } else {
      var n := |ops| - 1;
      at := RingHistory(ops[..n]);
      var l, s := Run(ops[..n]), Shifted(ops[..n]);
      if ops[n].Shift? {
        ShiftKeepsAccount(l, s, at, ops[n].b);
      } else if l.waiting != [] {
        TakeKeepsAccount(l, s, at);
        at := at + [|s| - |l.waiting|];
      }
      assert ops[n].Take? ==> Shifted(ops) == s + [] == s;
      hide Account, Apply;
    }
  }

  /** Every byte shifted out is still there, in order, exactly when none was lost. */
  lemma LosslessIff(ops: seq<Op>)
    ensures Run(ops).taken + Run(ops).waiting == Shifted(ops) <==> Run(ops).lost == 0
  {
    var at := RingHistory(ops);
    var l, s := Run(ops), Shifted(ops);
    if l.lost == 0 {
      Packed(at, |l.taken|);
      assert l.taken == s[..|l.taken|];
    }
  }

  /** Increasing places below their own number are all the places. */
  lemma {:induction false} Packed(at: seq<nat>, n: nat)
    requires |at| == n && forall i :: 0 <= i < n ==> at[i] < n
    requires forall i, j :: 0 <= i < j < n ==> at[i] < at[j]
    ensures forall i :: 0 <= i < n ==> at[i] == i
  {
    if n > 0 {
      assert forall i :: 0 <= i < n - 1 ==> at[i] < at[n - 1];
      Packed(at[..n - 1], n - 1);
      if n > 1 { assert at[n - 2] < at[n - 1] && at[..n - 1][n - 2] == n - 2; }
      forall i | 0 <= i < n ensures at[i] == i {
        if i < n - 1 { assert at[..n - 1][i] == i; }
      }
    }
  }

  class Ring {
    const bytes: array<byte>
    var head: nat
    var count: nat

    ghost predicate Valid()
      reads this
    {
      bytes.Length == CAPACITY && head < CAPACITY && count <= CAPACITY
    }

    /** Where the i-th waiting byte is stored. */
    function Slot(i: nat): nat
      reads this
    {
      (head + i) % CAPACITY
    }

    ghost function Waiting(): (s: seq<byte>)
      requires Valid()
      reads this, bytes
      ensures |s| == count
    {
      seq(count, i requires 0 <= i < count && Valid() reads this, bytes => bytes[Slot(i)])
    }

    constructor ()
      ensures Valid() && Waiting() == [] && fresh(bytes)
    {
      bytes, head, count := new byte[CAPACITY](i => 0), 0, 0;
    }

    method DropOldest()
      requires Valid() && count > 0
      modifies this
      ensures Valid() && count == old(count) - 1 && Waiting() == old(Waiting())[1..]
    {
      head := (head + 1) % bytes.Length;
      count := count - 1;
    }

    method Append(b: byte)
      requires Valid() && count < CAPACITY
      modifies `count, bytes
      ensures Valid() && Waiting() == old(Waiting()) + [b]
    {
      var at := (head + count) % bytes.Length;
      assert forall i :: 0 <= i < count ==> Slot(i) != at;
      bytes[at] := b;
      count := count + 1;
    }

    /** Full: the oldest is gone. */
    method ShiftOut(b: byte)
      requires Valid()
      modifies this, bytes
      ensures Valid() && Waiting() == Keep(old(Waiting()) + [b])
    {
      if count == bytes.Length {
        DropOldest();
      }
      Append(b);
      hide Slot;
    }

    method Transmitted() returns (some: bool, b: byte)
      requires Valid()
      modifies this
      ensures Valid() && some == (old(Waiting()) != [])
      ensures some ==> [b] + Waiting() == old(Waiting())
      ensures !some ==> Waiting() == old(Waiting())
    {
      if count == 0 { return false, 0; }
      b := bytes[head];
      assert Slot(0) == head && b == Waiting()[0];
      DropOldest();
      return true, b;
    }
  }
}
